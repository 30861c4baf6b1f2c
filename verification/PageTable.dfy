/**
 * Translation tables of arch/arm64/mmu.c as values.
 *
 * A table is a sequence of descriptors stored at a physical address; `Lookup` is the
 * walk the hardware (and arch_mmu_query) makes.  `Valid` says that the tables form a
 * tree, by giving each table its place: the level, the first address it covers and the
 * one slot that points to it.
 */
module PageTable {
  import opened Arith

  /** The attribute bits of a descriptor; PteFormat says which bits these are. */
  datatype AttrBits = AttrBits(bits: bv64)

  /** A 64-bit descriptor, split into its fields: bits 1:0, bits 47:12, and the rest. */
  datatype Pte = Pte(desc: nat, addr: nat, attrs: AttrBits)

  const DESC_INVALID: nat := 0
  const DESC_BLOCK: nat := 1
  const DESC_TABLE: nat := 3
  const DESC_PAGE: nat := 3
  const BLOCK_MAX_SHIFT: nat := 30
  /** An output address is a multiple of 4 KB below 2^48. */
  const PAGE_GRAIN: nat := 4096
  const PHYS_LIMIT: nat := 0x1_0000_0000_0000

  const CLEAR := Pte(DESC_INVALID, 0, AttrBits(0))

  function TablePte(addr: nat): Pte {
    Pte(DESC_TABLE, addr, AttrBits(0))
  }

  /** The page size, the number of levels above the last, and the size of the top table. */
  datatype Geometry = Geometry(pageShift: nat, topLevel: nat, topEntries: nat) {
    predicate Valid() {
      12 <= pageShift <= BLOCK_MAX_SHIFT && topEntries > 0
    }
  }

  /** Level 0 is the last level, whose descriptors are pages. */
  function IndexShift(g: Geometry, level: nat): nat
    requires g.Valid()
  {
    g.pageShift + Times(level, g.pageShift - 3)
  }

  function Fanout(g: Geometry): nat
    requires g.Valid()
  {
    Pow2(g.pageShift - 3)
  }

  function BlockSize(g: Geometry, level: nat): (b: nat)
    requires g.Valid()
    ensures b > 0
  {
    Pow2(IndexShift(g, level))
  }

  lemma BlockSizeStep(g: Geometry, level: nat)
    requires g.Valid()
    ensures IndexShift(g, level + 1) == IndexShift(g, level) + (g.pageShift - 3)
    ensures BlockSize(g, level + 1) == Times(Fanout(g), BlockSize(g, level))
  {
    Pow2Add(g.pageShift - 3, IndexShift(g, level));
    TimesIsProduct(Fanout(g), BlockSize(g, level));
  }

  /** The entries of a table, of 8 bytes each, fill a page; the last level maps pages. */
  lemma TableFillsPage(g: Geometry)
    requires g.Valid()
    ensures Fanout(g) * 8 == Pow2(g.pageShift) == BlockSize(g, 0)
  {
    Pow2Add(g.pageShift - 3, 3);
    assert Pow2(3) == 8;
  }

  /** Where a table sits: its level, the first address it covers, and the slot pointing to it. */
  datatype Place = Place(level: nat, base: nat, parent: nat, slot: nat)

  datatype Tables = Tables(g: Geometry, root: nat, mem: map<nat, seq<Pte>>, place: map<nat, Place>)

  /** The end of a walk: the level of the descriptor found and, on a hit, what it maps to. */
  datatype Walk = Miss(level: nat) | Hit(pa: nat, attrs: AttrBits, level: nat)

  ghost predicate IsLeaf(level: nat, e: Pte) {
    e.desc == if level > 0 then DESC_BLOCK else DESC_PAGE
  }

  ghost predicate IsTable(level: nat, e: Pte) {
    level > 0 && e.desc == DESC_TABLE
  }

  ghost function Lookup(s: Tables, table: nat, level: nat, rel: nat): Walk
    requires s.g.Valid()
    decreases level
  {
    var b := BlockSize(s.g, level);
    if table !in s.mem || Quot(rel, b) >= |s.mem[table]| then
      Miss(level)
    else
      var e := s.mem[table][Quot(rel, b)];
      if IsLeaf(level, e) then
        Hit(e.addr + Rem(rel, b), e.attrs, level)
      else if IsTable(level, e) then
        Lookup(s, e.addr, level - 1, Rem(rel, b))
      else
        Miss(level)
  }

  /** The walk from the root; `va` is relative to the base of the address space. */
  ghost function Query(s: Tables, va: nat): Walk
    requires s.g.Valid()
  {
    Lookup(s, s.root, s.g.topLevel, va)
  }

  // ---- the tree ----

  ghost function SlotBase(s: Tables, p: nat, i: nat): nat
    requires s.g.Valid() && p in s.place
  {
    s.place[p].base + Times(i, BlockSize(s.g, s.place[p].level))
  }

  /** `va` lies in the addresses that slot `i` of table `p` covers. */
  ghost predicate InSlot(s: Tables, p: nat, i: nat, va: int)
    requires s.g.Valid() && p in s.place
  {
    SlotBase(s, p, i) <= va < SlotBase(s, p, i) + BlockSize(s.g, s.place[p].level)
  }

  ghost predicate InTable(s: Tables, p: nat, va: int)
    requires s.g.Valid() && p in s.place && p in s.mem
  {
    s.place[p].base <= va < s.place[p].base + Times(|s.mem[p]|, BlockSize(s.g, s.place[p].level))
  }

  /** A slot is clear, or holds an aligned leaf, or just points to the table placed there. */
  ghost predicate SlotOk(s: Tables, p: nat, i: nat)
    requires s.g.Valid() && p in s.place && p in s.mem && i < |s.mem[p]|
  {
    var e := s.mem[p][i];
    var level := s.place[p].level;
    || e == CLEAR
    || (IsLeaf(level, e) && Rem(e.addr, BlockSize(s.g, level)) == 0 && IndexShift(s.g, level) <= BLOCK_MAX_SHIFT)
    || (IsTable(level, e) && e == TablePte(e.addr)
        && e.addr in s.mem && e.addr in s.place
        && s.place[e.addr] == Place(level - 1, SlotBase(s, p, i), p, i))
  }

  /** The root has the top level; every other table is in exactly the slot its place names. */
  ghost predicate TableOk(s: Tables, p: nat)
    requires s.g.Valid() && p in s.place && p in s.mem
  {
    var t := s.place[p];
    && Rem(t.base, BlockSize(s.g, t.level + 1)) == 0
    && (if p == s.root then
          t.level == s.g.topLevel && t.base == 0 && |s.mem[p]| == s.g.topEntries
        else
          && t.level < s.g.topLevel && |s.mem[p]| == Fanout(s.g)
          && t.parent in s.mem && t.parent in s.place && s.place[t.parent].level == t.level + 1
          && t.slot < |s.mem[t.parent]|
          && IsTable(t.level + 1, s.mem[t.parent][t.slot]) && s.mem[t.parent][t.slot].addr == p)
    && forall i {:trigger SlotOk(s, p, i)} :: 0 <= i < |s.mem[p]| ==> SlotOk(s, p, i)
  }

  ghost predicate Valid(s: Tables) {
    && s.g.Valid()
    && s.root in s.mem
    && s.place.Keys == s.mem.Keys
    && forall p {:trigger TableOk(s, p)} :: p in s.mem ==> TableOk(s, p)
  }

  /** The descriptor types that occur. */
  lemma SlotKinds(s: Tables, p: nat, i: nat)
    requires Valid(s) && p in s.mem && i < |s.mem[p]|
    ensures s.place[p].level > 0 ==> s.mem[p][i].desc in {DESC_INVALID, DESC_BLOCK, DESC_TABLE}
    ensures s.place[p].level == 0 ==> s.mem[p][i].desc in {DESC_INVALID, DESC_PAGE}
    ensures s.mem[p][i].desc == DESC_INVALID <==> s.mem[p][i] == CLEAR
  {
    assert TableOk(s, p) && SlotOk(s, p, i);
  }

  /** Slot arithmetic: the slot of `va` in `p`, and the offset that is left. */
  lemma SlotOf(s: Tables, p: nat, va: nat) returns (i: nat)
    requires Valid(s) && p in s.mem && InTable(s, p, va)
    ensures i < |s.mem[p]| && InSlot(s, p, i, va)
    ensures i == Quot(va - s.place[p].base, BlockSize(s.g, s.place[p].level))
    ensures Rem(va - s.place[p].base, BlockSize(s.g, s.place[p].level)) == va - SlotBase(s, p, i)
  {
    var b := BlockSize(s.g, s.place[p].level);
    var rel := va - s.place[p].base;
    i := Quot(rel, b);
    QuotRem(rel, b);
    TimesMonotone(|s.mem[p]|, i, b);
  }

  lemma SlotInTable(s: Tables, p: nat, i: nat, va: nat)
    requires Valid(s) && p in s.mem && i < |s.mem[p]| && InSlot(s, p, i, va)
    ensures InTable(s, p, va)
    ensures Quot(va - s.place[p].base, BlockSize(s.g, s.place[p].level)) == i
    ensures Rem(va - s.place[p].base, BlockSize(s.g, s.place[p].level)) == va - SlotBase(s, p, i)
  {
    var b := BlockSize(s.g, s.place[p].level);
    var rel := va - s.place[p].base;
    TimesMonotone(i + 1, |s.mem[p]|, b);
    QuotRemUnique(rel, b, i, rel - Times(i, b));
  }

  /** The table a slot points to covers exactly that slot. */
  lemma ChildCoversSlot(s: Tables, p: nat, i: nat, va: nat)
    requires Valid(s) && p in s.mem && i < |s.mem[p]| && IsTable(s.place[p].level, s.mem[p][i])
    ensures s.mem[p][i].addr in s.mem && s.place[s.mem[p][i].addr].level == s.place[p].level - 1
    ensures s.mem[p][i].addr != s.root && s.place[s.mem[p][i].addr].base == SlotBase(s, p, i)
    ensures InTable(s, s.mem[p][i].addr, va) <==> InSlot(s, p, i, va)
  {
    assert TableOk(s, p);
    assert SlotOk(s, p, i);
    var c := s.mem[p][i].addr;
    assert TableOk(s, c);
    assert c != s.root by {
      assert s.place[p].level <= s.g.topLevel;
    }
    BlockSizeStep(s.g, s.place[p].level - 1);
  }

  /** One step of the walk, seen from a table that covers `va`. */
  lemma LookupAtSlot(s: Tables, p: nat, i: nat, va: nat)
    requires Valid(s) && p in s.mem && i < |s.mem[p]| && InSlot(s, p, i, va)
    ensures InTable(s, p, va)
    ensures var e := s.mem[p][i];
            var level := s.place[p].level;
            Lookup(s, p, level, va - s.place[p].base) ==
            if IsLeaf(level, e) then Hit(e.addr + (va - SlotBase(s, p, i)), e.attrs, level)
            else if IsTable(level, e) then Lookup(s, e.addr, level - 1, va - SlotBase(s, p, i))
            else Miss(level)
  {
    SlotInTable(s, p, i, va);
  }

  lemma LookupFromParent(s: Tables, p: nat, va: nat)
    requires Valid(s) && p in s.mem && p != s.root && InTable(s, p, va)
    ensures s.place[p].parent in s.mem && InTable(s, s.place[p].parent, va)
    ensures s.place[s.place[p].parent].level == s.place[p].level + 1 <= s.g.topLevel
    ensures Lookup(s, s.place[p].parent, s.place[p].level + 1, va - s.place[s.place[p].parent].base)
         == Lookup(s, p, s.place[p].level, va - s.place[p].base)
  {
    var t := s.place[p];
    assert TableOk(s, p);
    ChildCoversSlot(s, t.parent, t.slot, va);
    LookupAtSlot(s, t.parent, t.slot, va);
  }

  /** Walking from any table that covers `va` gives what walking from the root gives. */
  lemma {:induction false} WalkFromAnyTable(s: Tables, p: nat, va: nat)
    requires Valid(s) && p in s.mem && InTable(s, p, va)
    ensures Query(s, va) == Lookup(s, p, s.place[p].level, va - s.place[p].base)
    decreases s.g.topLevel - s.place[p].level
  {
    if p == s.root {
      assert TableOk(s, p);
    } else {
      LookupFromParent(s, p, va);
      WalkFromAnyTable(s, s.place[p].parent, va);
    }
  }

  // ---- the four ways in which the tables change ----

  /** `s'` differs from `s` in slot `i` of `p` only, up to the table that hangs there. */
  ghost predicate OnlySlotDiffers(s: Tables, s': Tables, p: nat, i: nat)
    requires s.g.Valid() && p in s.place && p in s.mem && i < |s.mem[p]|
  {
    && s'.g == s.g && s'.root == s.root
    && p in s'.mem && |s'.mem[p]| == |s.mem[p]|
    && (forall j :: 0 <= j < |s.mem[p]| && j != i ==> s'.mem[p][j] == s.mem[p][j])
    && (forall q :: q in s.mem && q != p && (IsTable(s.place[p].level, s.mem[p][i]) ==> q != s.mem[p][i].addr)
          ==> q in s'.mem && s'.mem[q] == s.mem[q])
  }

  lemma {:induction false} LookupElsewhere(s: Tables, s': Tables, p: nat, i: nat, q: nat, va: nat)
    requires Valid(s) && p in s.mem && i < |s.mem[p]| && OnlySlotDiffers(s, s', p, i)
    requires q in s.mem && InTable(s, q, va) && !InSlot(s, p, i, va)
    ensures Lookup(s', q, s.place[q].level, va - s.place[q].base)
         == Lookup(s, q, s.place[q].level, va - s.place[q].base)
    decreases s.place[q].level
  {
    var level := s.place[p].level;
    if IsTable(level, s.mem[p][i]) {
      ChildCoversSlot(s, p, i, va);
    }
    var j := SlotOf(s, q, va);
    var e := s.mem[q][j];
    if IsTable(s.place[q].level, e) {
      ChildCoversSlot(s, q, j, va);
      LookupElsewhere(s, s', p, i, e.addr, va);
    }
  }

  lemma OutsideRoot(s: Tables, va: nat)
    requires Valid(s) && !InTable(s, s.root, va)
    ensures Quot(va, BlockSize(s.g, s.g.topLevel)) >= s.g.topEntries
  {
    assert TableOk(s, s.root);
    var b := BlockSize(s.g, s.g.topLevel);
    QuotRem(va, b);
    TimesMonotone(Quot(va, b) + 1, s.g.topEntries, b);
  }

  lemma QueryElsewhere(s: Tables, s': Tables, p: nat, i: nat, va: nat)
    requires Valid(s) && p in s.mem && i < |s.mem[p]| && OnlySlotDiffers(s, s', p, i)
    requires Valid(s') && !InSlot(s, p, i, va)
    ensures Query(s', va) == Query(s, va)
  {
    assert TableOk(s, s.root);
    assert TableOk(s', s.root);
    if InTable(s, s.root, va) {
      LookupElsewhere(s, s', p, i, s.root, va);
    } else {
      OutsideRoot(s, va);
      OutsideRoot(s', va);
    }
  }

  /** What a walk to an address in a slot finds. */
  lemma QueryInSlot(s: Tables, p: nat, i: nat, va: nat)
    requires Valid(s) && p in s.mem && i < |s.mem[p]| && InSlot(s, p, i, va)
    ensures var e := s.mem[p][i];
            var level := s.place[p].level;
            && (IsLeaf(level, e) ==> Query(s, va) == Hit(e.addr + (va - SlotBase(s, p, i)), e.attrs, level))
            && (e == CLEAR ==> Query(s, va) == Miss(level))
            && (IsTable(level, e) ==> Query(s, va) == Lookup(s, e.addr, level - 1, va - SlotBase(s, p, i)))
  {
    LookupAtSlot(s, p, i, va);
    WalkFromAnyTable(s, p, va);
  }

  ghost function WithEntry(s: Tables, p: nat, i: nat, e: Pte): Tables
    requires p in s.mem && i < |s.mem[p]|
  {
    s.(mem := s.mem[p := s.mem[p][i := e]])
  }

  ghost predicate CanWrite(s: Tables, p: nat, i: nat, e: Pte)
    requires s.g.Valid() && p in s.place && p in s.mem && i < |s.mem[p]|
  {
    var level := s.place[p].level;
    && !IsTable(level, s.mem[p][i])
    && (e == CLEAR || (IsLeaf(level, e) && Rem(e.addr, BlockSize(s.g, level)) == 0
                       && IndexShift(s.g, level) <= BLOCK_MAX_SHIFT))
  }

  lemma WriteKeepsTree(s: Tables, p: nat, i: nat, e: Pte)
    requires Valid(s) && p in s.mem && i < |s.mem[p]| && CanWrite(s, p, i, e)
    ensures Valid(WithEntry(s, p, i, e))
  {
    var s' := WithEntry(s, p, i, e);
    forall q | q in s'.mem
      ensures TableOk(s', q)
    {
      assert TableOk(s, q);
      forall j | 0 <= j < |s'.mem[q]|
        ensures SlotOk(s', q, j)
      {
        assert SlotOk(s, q, j);
      }
    }
  }

  /** Writing a block or page descriptor into a slot, or clearing one. */
  lemma WriteLeaf(s: Tables, p: nat, i: nat, e: Pte)
    requires Valid(s) && p in s.mem && i < |s.mem[p]| && CanWrite(s, p, i, e)
    ensures Valid(WithEntry(s, p, i, e))
    ensures forall va: nat :: Query(WithEntry(s, p, i, e), va) ==
              if !InSlot(s, p, i, va) then Query(s, va)
              else if e == CLEAR then Miss(s.place[p].level)
              else Hit(e.addr + (va - SlotBase(s, p, i)), e.attrs, s.place[p].level)
  {
    var s' := WithEntry(s, p, i, e);
    WriteKeepsTree(s, p, i, e);
    forall va: nat
      ensures Query(s', va) ==
              if !InSlot(s, p, i, va) then Query(s, va)
              else if e == CLEAR then Miss(s.place[p].level)
              else Hit(e.addr + (va - SlotBase(s, p, i)), e.attrs, s.place[p].level)
    {
      if InSlot(s, p, i, va) {
        QueryInSlot(s', p, i, va);
      } else {
        QueryElsewhere(s, s', p, i, va);
      }
    }
  }

  lemma SlotBaseAligned(s: Tables, p: nat, i: nat)
    requires Valid(s) && p in s.mem
    ensures Rem(SlotBase(s, p, i), BlockSize(s.g, s.place[p].level)) == 0
  {
    assert TableOk(s, p);
    var t := s.place[p];
    var b := BlockSize(s.g, t.level);
    BlockSizeStep(s.g, t.level);
    RemOfRem(t.base, Fanout(s.g), b);
    RemOfMultiple(i, b, t.base);
  }

  ghost function Linked(s: Tables, p: nat, i: nat, q: nat): Tables
    requires s.g.Valid() && p in s.mem && p in s.place && i < |s.mem[p]| && s.place[p].level > 0
  {
    s.(mem := s.mem[p := s.mem[p][i := TablePte(q)]][q := seq(Fanout(s.g), _ => CLEAR)],
       place := s.place[q := Place(s.place[p].level - 1, SlotBase(s, p, i), p, i)])
  }

  /** What linking does to the contents. */
  lemma LinkedMem(s: Tables, p: nat, i: nat, q: nat)
    requires s.g.Valid() && p in s.mem && p in s.place && i < |s.mem[p]| && s.place[p].level > 0 && q !in s.mem
    ensures var s' := Linked(s, p, i, q);
            && s'.g == s.g && s'.root == s.root && s'.mem.Keys == s.mem.Keys + {q}
            && s'.mem[p] == s.mem[p][i := TablePte(q)] && s'.mem[q] == seq(Fanout(s.g), _ => CLEAR)
            && forall r :: r in s.mem && r != p ==> s'.mem[r] == s.mem[r]
  {
  }

  lemma LinkKeepsTable(s: Tables, p: nat, i: nat, q: nat, r: nat)
    requires Valid(s) && p in s.mem && i < |s.mem[p]| && s.place[p].level > 0
    requires s.mem[p][i] == CLEAR && q !in s.mem && r in s.mem
    ensures TableOk(Linked(s, p, i, q), r)
  {
    var s' := Linked(s, p, i, q);
    assert TableOk(s, r);
    forall j | 0 <= j < |s'.mem[r]|
      ensures SlotOk(s', r, j)
    {
      assert SlotOk(s, r, j);
    }
  }

  lemma LinkKeepsTree(s: Tables, p: nat, i: nat, q: nat)
    requires Valid(s) && p in s.mem && i < |s.mem[p]| && s.place[p].level > 0
    requires s.mem[p][i] == CLEAR && q !in s.mem
    ensures Valid(Linked(s, p, i, q))
  {
    var s' := Linked(s, p, i, q);
    assert TableOk(s, p);
    SlotBaseAligned(s, p, i);
    assert TableOk(s', q);
    forall r | r in s'.mem
      ensures TableOk(s', r)
    {
      if r != q {
        LinkKeepsTable(s, p, i, q, r);
      }
    }
  }

  /** Hanging a new, clear table on a clear slot. */
  lemma LinkTable(s: Tables, p: nat, i: nat, q: nat)
    requires Valid(s) && p in s.mem && i < |s.mem[p]| && s.place[p].level > 0
    requires s.mem[p][i] == CLEAR && q !in s.mem
    ensures Valid(Linked(s, p, i, q))
    ensures forall va: nat :: Query(Linked(s, p, i, q), va) ==
              if InSlot(s, p, i, va) then Miss(s.place[p].level - 1) else Query(s, va)
  {
    var s' := Linked(s, p, i, q);
    LinkKeepsTree(s, p, i, q);
    forall va: nat
      ensures Query(s', va) == if InSlot(s, p, i, va) then Miss(s.place[p].level - 1) else Query(s, va)
    {
      if InSlot(s, p, i, va) {
        ChildCoversSlot(s', p, i, va);
        var j := SlotOf(s', q, va);
        QueryInSlot(s', q, j, va);
      } else {
        QueryElsewhere(s, s', p, i, va);
      }
    }
  }

  ghost predicate AllClear(table: seq<Pte>) {
    forall i :: 0 <= i < |table| ==> table[i] == CLEAR
  }

  ghost function Unlinked(s: Tables, p: nat, i: nat): Tables
    requires p in s.mem && i < |s.mem[p]|
  {
    s.(mem := s.mem[p := s.mem[p][i := CLEAR]] - {s.mem[p][i].addr},
       place := s.place - {s.mem[p][i].addr})
  }

  lemma UnlinkKeepsTable(s: Tables, p: nat, i: nat, r: nat)
    requires Valid(s) && p in s.mem && i < |s.mem[p]| && IsTable(s.place[p].level, s.mem[p][i])
    requires s.mem[p][i].addr in s.mem && AllClear(s.mem[s.mem[p][i].addr])
    requires r in s.mem && r != s.mem[p][i].addr
    ensures r in Unlinked(s, p, i).mem && TableOk(Unlinked(s, p, i), r)
  {
    var s' := Unlinked(s, p, i);
    assert TableOk(s, p) && SlotOk(s, p, i);
    assert TableOk(s, r);
    forall j | 0 <= j < |s'.mem[r]|
      ensures SlotOk(s', r, j)
    {
      assert SlotOk(s, r, j);
    }
  }

  lemma UnlinkKeepsTree(s: Tables, p: nat, i: nat)
    requires Valid(s) && p in s.mem && i < |s.mem[p]| && IsTable(s.place[p].level, s.mem[p][i])
    requires s.mem[p][i].addr in s.mem && AllClear(s.mem[s.mem[p][i].addr])
    ensures Valid(Unlinked(s, p, i))
  {
    ChildCoversSlot(s, p, i, 0);
    forall r | r in Unlinked(s, p, i).mem
      ensures TableOk(Unlinked(s, p, i), r)
    {
      UnlinkKeepsTable(s, p, i, r);
    }
  }

  /** Taking a clear table off its slot. */
  lemma UnlinkTable(s: Tables, p: nat, i: nat)
    requires Valid(s) && p in s.mem && i < |s.mem[p]| && IsTable(s.place[p].level, s.mem[p][i])
    requires s.mem[p][i].addr in s.mem && AllClear(s.mem[s.mem[p][i].addr])
    ensures Valid(Unlinked(s, p, i))
    ensures forall va: nat :: InSlot(s, p, i, va) ==> Query(s, va) == Miss(s.place[p].level - 1)
    ensures forall va: nat :: Query(Unlinked(s, p, i), va) ==
              if InSlot(s, p, i, va) then Miss(s.place[p].level) else Query(s, va)
  {
    var s' := Unlinked(s, p, i);
    var c := s.mem[p][i].addr;
    ChildCoversSlot(s, p, i, 0);
    UnlinkKeepsTree(s, p, i);
    forall va: nat
      ensures InSlot(s, p, i, va) ==> Query(s, va) == Miss(s.place[p].level - 1)
      ensures Query(s', va) == if InSlot(s, p, i, va) then Miss(s.place[p].level) else Query(s, va)
    {
      if InSlot(s, p, i, va) {
        ChildCoversSlot(s, p, i, va);
        var j := SlotOf(s, c, va);
        QueryInSlot(s, c, j, va);
        QueryInSlot(s', p, i, va);
      } else {
        QueryElsewhere(s, s', p, i, va);
      }
    }
  }
}

/**
 * The page-table operations of arch/arm64/mmu.c: tables are arrays of descriptors,
 * found through their physical address and updated in place.
 */
module Mmu {
  import opened Arith
  import opened PageTable
  import opened Spans
  import opened Mapping
  import opened TableCount
  import opened TreeShape
  import opened PteFormat
  import AddressSpace

  const NO_ERROR: int := 0
  const ERR_GENERIC: int := -1
  const ERR_NOT_FOUND: int := -2
  const ERR_INVALID_ARGS: int := -8
  const ERR_OUT_OF_RANGE: int := -37

  /** Virtual addresses and sizes are 64-bit. */
  const WORD: nat := 0x1_0000_0000_0000_0000

  function Min(a: nat, b: nat): (m: nat)
    ensures m <= a && m <= b && (m == a || m == b)
  {
    if a < b then a else b
  }

  class PageTables {
    const g: Geometry
    const root: nat
    const vaddrBase: nat
    /** The address space covers 2^topSizeShift addresses from vaddrBase. */
    const topSizeShift: nat
    /** The part of it that this address space may use, and PAGE_SIZE. */
    const aspaceBase: nat
    const aspaceSize: nat
    const pageSize: nat
    /** Physical memory: the table-sized frame at each address, the root's included. */
    const ram: map<nat, array<PteWord>>
    /** The address of each frame. */
    ghost const addressOf: map<array<PteWord>, nat>
    ghost const repr: set<array<PteWord>>

    /** The allocator's answers, by the number of the allocation: any, also when frames are left. */
    const grants: nat -> bool

    /** Frames that hold no table. */
    var pool: set<nat>
    /** How many allocations were asked for, and how many of them were refused. */
    var allocs: nat
    ghost var refusals: nat
    /** The contents of the tables, and the place of each. */
    ghost var tables: Tables
    ghost var tlb: set<TlbEntry>

    /** The frames are distinct arrays of the right size. */
    ghost predicate Frames() {
      && g.Valid() && root in ram && vaddrBase < WORD
      && topSizeShift <= 48 && Pow2(topSizeShift) == Times(g.topEntries, BlockSize(g, g.topLevel))
      && vaddrBase + Pow2(topSizeShift) <= WORD && pageSize > 0
      && vaddrBase <= aspaceBase && 0 < aspaceSize
      && aspaceBase + aspaceSize <= vaddrBase + Pow2(topSizeShift)
      && forall p :: p in ram ==>
           && ram[p] in repr && ram[p] in addressOf && addressOf[ram[p]] == p
           && ram[p].Length == (if p == root then g.topEntries else Fanout(g)) && AddrFits(p)
    }

    /** The words of a frame are the descriptors of a table. */
    ghost predicate Holds(words: seq<PteWord>, table: seq<Pte>) {
      |words| == |table| && forall i :: 0 <= i < |words| ==> Decode(words[i]) == table[i]
    }

    /** `tables` is what the frames in use hold; every other frame is free. */
    ghost predicate Represents()
      reads this, repr
    {
      && Frames() && tables.g == g && tables.root == root
      && pool !! tables.mem.Keys && pool + tables.mem.Keys == ram.Keys && root !in pool
      && forall p :: p in tables.mem ==> Holds(ram[p][..], tables.mem[p])
    }

    ghost predicate Ok()
      reads this, repr
    {
      Represents() && Valid(tables) && TlbCurrent(tables, tlb)
    }

    lemma OkTable(p: nat)
      requires Ok() && p in tables.mem
      ensures p in ram && ram[p].Length == |tables.mem[p]| && p in tables.place
      ensures tables.g == g && g.Valid() && Valid(tables)
      ensures Pow2(IndexShift(g, tables.place[p].level)) == BlockSize(g, tables.place[p].level)
    {
    }

    lemma EntryIs(p: nat, i: nat)
      requires Ok() && p in tables.mem && p in ram && i < ram[p].Length
      ensures i < |tables.mem[p]| && Decode(ram[p][i]) == tables.mem[p][i]
    {
      assert Decode(ram[p][..][i]) == tables.mem[p][i];
    }

    /** What a table holds fits the fields of a descriptor, whatever was asked for. */
    lemma EntryFits(p: nat, i: nat)
      requires Represents() && p in tables.mem && i < |tables.mem[p]|
      ensures AddrFits(tables.mem[p][i].addr) && AttrsFit(tables.mem[p][i].attrs)
    {
      DecodedFits(ram[p][..][i]);
    }

    /** The word in memory behind a translation, bit by bit: what the hardware reads for a page mapped with `flags`. */
    lemma MappedWord(va: nat, flags: bv32) returns (p: nat, i: nat)
      requires Ok() && flags & 3 != 3
      requires PageTable.Query(tables, va).Hit? && PageTable.Query(tables, va).attrs == AttrBits(FlagsToAttr(flags))
      ensures p in tables.mem && p in tables.place && p in ram && i < ram[p].Length && InSlot(tables, p, i, va)
      ensures tables.place[p].level == PageTable.Query(tables, va).level
      ensures var w := ram[p][i].bits;
              && BitsOfFlags(w, flags) && w & 0xFF9F_0000_0000_0800 == 0
              && (w & 3) as nat == (if tables.place[p].level > 0 then 1 else 3)
              && ((w >> 12) & 0xF_FFFF_FFFF) as nat * 4096 + (va - SlotBase(tables, p, i))
                 == PageTable.Query(tables, va).pa
    {
      HitInRoot(tables, va);
      p, i := WalkEnd(tables, root, va);
      OkTable(p);
      EntryIs(p, i);
      QueryInSlot(tables, p, i, va);
      StoredBits(ram[p][i], flags);
    }

    /** arch_mmu_init_aspace, with the frames given: the top table is cleared. */
    constructor (g: Geometry, ram: map<nat, array<PteWord>>, root: nat, vaddrBase: nat, topSizeShift: nat,
                 aspaceBase: nat, aspaceSize: nat, pageSize: nat, grants: nat -> bool, ghost addressOf: map<array<PteWord>, nat>)
      requires g.Valid() && root in ram && pageSize > 0
      requires topSizeShift <= 48 && Pow2(topSizeShift) == Times(g.topEntries, BlockSize(g, g.topLevel))
      requires vaddrBase + Pow2(topSizeShift) <= WORD
      requires vaddrBase <= aspaceBase && 0 < aspaceSize && aspaceBase + aspaceSize <= vaddrBase + Pow2(topSizeShift)
      requires forall p :: p in ram ==>
                 && ram[p] in addressOf && addressOf[ram[p]] == p
                 && ram[p].Length == (if p == root then g.topEntries else Fanout(g)) && AddrFits(p)
      modifies ram[root]
      ensures Ok() && this.ram == ram && this.root == root && this.g == g && this.grants == grants
      ensures this.vaddrBase == vaddrBase && this.topSizeShift == topSizeShift && this.pageSize == pageSize
      ensures this.aspaceBase == aspaceBase && this.aspaceSize == aspaceSize
      ensures repr == (set p | p in ram :: ram[p]) && pool == ram.Keys - {root} && allocs == refusals == 0 && tlb == {}
      ensures tables == AddressSpace.NoTables(g, root)
      ensures forall va: nat :: PageTable.Query(tables, va).Miss?
    {
      this.g, this.ram, this.root, this.vaddrBase, this.topSizeShift := g, ram, root, vaddrBase, topSizeShift;
      this.aspaceBase, this.aspaceSize, this.pageSize, this.addressOf := aspaceBase, aspaceSize, pageSize, addressOf;
      this.grants, this.allocs, this.refusals := grants, 0, 0;
      this.repr := set p | p in ram :: ram[p];
      this.pool := ram.Keys - {root};
      this.tables := AddressSpace.NoTables(g, root);
      this.tlb := {};
      new;
      ClearTable(ram[root]);
      AddressSpace.NoTablesValid(g, root);
    }

    /** A store into a table: other entries and other tables keep their contents. */
    method WriteEntry(p: nat, i: nat, e: Pte)
      requires Represents() && p in tables.mem && i < ram[p].Length
      requires e.desc < 4 && AddrFits(e.addr) && AttrsFit(e.attrs)
      modifies this`tables, ram[p]
      ensures Represents() && tables == WithEntry(old(tables), p, i, e)
    {
      DecodeEncode(e);
      ram[p][i] := Encode(e);
      tables := WithEntry(tables, p, i, e);
    }

    method ClearEntry(p: nat, i: nat)
      requires Represents() && p in tables.mem && i < ram[p].Length
      modifies this`tables, ram[p]
      ensures Represents() && tables == WithEntry(old(tables), p, i, CLEAR)
    {
      ZeroIsClear(ZERO);
      ram[p][i] := ZERO;
      tables := WithEntry(tables, p, i, CLEAR);
    }

    /** The number of free frames. */
    ghost function Free(): nat
      reads this`pool
    {
      |pool|
    }

    predicate Granted()
      reads this
    {
      pool != {} && grants(allocs)
    }

    lemma GrantedOne()
      ensures Granted() ==> grants(allocs)
    {
    }

    /** The allocator takes a free frame, or refuses; every refusal is counted. */
    method AllocPageTable() returns (ok: bool, paddr: nat)
      modifies this`pool, this`allocs, this`refusals
      ensures allocs == old(allocs) + 1 && ok == old(Granted())
      ensures refusals == old(refusals) + if ok then 0 else 1
      ensures Tally(grants, old(allocs), old(Free()), allocs, Free(), 1, ok, !ok)
      ensures !ok ==> pool == old(pool)
      ensures ok ==> paddr in old(pool) && pool == old(pool) - {paddr}
    {
      ok, paddr := Granted(), 0;
      allocs := allocs + 1;
      if ok {
        paddr :| paddr in pool;
        pool := pool - {paddr};
      } else {
        refusals := refusals + 1;
      }
      OneAsked(grants, old(allocs), old(Free()), Free(), ok);
    }

    method ClearTable(table: array<PteWord>)
      modifies table
      ensures Holds(table[..], seq(table.Length, _ => CLEAR))
    {
      ZeroIsClear(ZERO);
      for i := 0 to table.Length
        invariant forall j :: 0 <= j < i ==> table[j] == ZERO
      {
        table[i] := ZERO;
      }
    }

    /** A free frame, cleared; the tables stay as they are. */
    method NewTable() returns (ok: bool, next: nat)
      requires Represents()
      modifies this`pool, this`allocs, this`refusals, repr
      ensures allocs == old(allocs) + 1 && ok == old(Granted())
      ensures refusals == old(refusals) + if ok then 0 else 1
      ensures Tally(grants, old(allocs), old(Free()), allocs, Free(), 1, ok, !ok)
      ensures !ok ==> Represents()
      ensures ok ==> next in old(pool) && pool == old(pool) - {next}
      ensures ok ==> Holds(ram[next][..], seq(Fanout(g), _ => CLEAR))
      ensures forall p :: p in tables.mem ==> Holds(ram[p][..], tables.mem[p])
    {
      hide Decode, Encode, BlockSize, Fanout, Granted, Tally, Free;
      ok, next := AllocPageTable();
      if ok {
        ClearTable(ram[next]);
        forall p | p in tables.mem
          ensures Holds(ram[p][..], tables.mem[p])
        {
          assert ram[p][..] == old(ram[p][..]);
        }
      }
    }

    /** A new table, cleared and linked into a slot. */
    method LinkNewTable(index: nat, pageTable: nat) returns (ok: bool, next: nat)
      requires Represents() && pageTable in tables.mem && pageTable in tables.place
      requires index < ram[pageTable].Length && tables.place[pageTable].level > 0
      modifies this`pool, this`allocs, this`refusals, this`tables, repr
      ensures Represents()
      ensures allocs == old(allocs) + 1 && ok == old(Granted())
      ensures refusals == old(refusals) + if ok then 0 else 1
      ensures ok ==> next !in old(tables).mem && tables == Linked(old(tables), pageTable, index, next)
      ensures !ok ==> tables == old(tables)
      ensures Tally(grants, old(allocs), old(Free()), allocs, Free(), 1, ok, !ok)
    {
      hide Decode, Encode, BlockSize, SlotBase, IndexShift, Times, Pow2, Granted, Linked, Tally, Free;
      ok, next := NewTable();
      if ok {
        LinkedMem(tables, pageTable, index, next);
        DecodeEncode(TablePte(next));
        ram[pageTable][index] := Encode(TablePte(next));
        tables := Linked(tables, pageTable, index, next);
        assert Holds(ram[pageTable][..], tables.mem[pageTable]);
      }
    }

    /** arm64_mmu_get_page_table: the table behind a slot, unless an allocation fails or a block is there. */
    method GetPageTable(index: nat, pageTable: nat) returns (found: bool, next: nat)
      requires Represents() && Valid(tables)
      requires pageTable in tables.mem && index < ram[pageTable].Length && tables.place[pageTable].level > 0
      modifies this`pool, this`allocs, this`refusals, this`tables, repr
      ensures Represents()
      ensures GotTable(old(tables), tables, pageTable, index, found, next, refusals != old(refusals))
      ensures refusals >= old(refusals) && (found ==> refusals == old(refusals))
      ensures if old(tables).mem[pageTable][index] == CLEAR
              then Tally(grants, old(allocs), old(Free()), allocs, Free(), 1, found, !found)
              else allocs == old(allocs) && pool == old(pool)
      ensures old(tables).mem[pageTable][index] == CLEAR ==> allocs == old(allocs) + 1 && found == old(Granted())
    {
      hide Tally, Free;
      var pte := Decode(ram[pageTable][index]);
      assert pte == tables.mem[pageTable][index];
      SlotKinds(tables, pageTable, index);
      found, next := false, 0;
      if pte.desc == DESC_INVALID {
        found, next := LinkNewTable(index, pageTable);
      } else if pte.desc == DESC_TABLE {
        found, next := true, pte.addr;
      }
    }

    /** page_table_is_clear */
    method PageTableIsClear(pageTable: nat) returns (clear: bool)
      requires Represents() && pageTable in tables.mem
      ensures clear <==> AllClear(tables.mem[pageTable])
    {
      var table := ram[pageTable];
      for i := 0 to table.Length
        invariant forall j :: 0 <= j < i ==> tables.mem[pageTable][j] == CLEAR
      {
        ZeroIsClear(table[i]);
        assert Decode(table[..][i]) == tables.mem[pageTable][i];
        if table[i] != ZERO {
          return false;
        }
      }
      return true;
    }

    /** tlbi vae1is / vaae1is: drop the cached translation of the block that holds `vaddr`. */
    ghost method Tlbi(vaddr: nat)
      requires g.Valid() && vaddr >= vaddrBase
      modifies this`tlb
      ensures tlb == Invalidated(g, old(tlb), vaddr - vaddrBase)
    {
      tlb := Invalidated(g, tlb, vaddr - vaddrBase);
    }

    method UnlinkAndFree(pageTable: nat, index: nat)
      requires Represents() && pageTable in tables.mem && index < ram[pageTable].Length
      requires Decode(ram[pageTable][index]).addr in tables.mem
      requires Decode(ram[pageTable][index]).addr !in {pageTable, root}
      requires AllClear(tables.mem[Decode(ram[pageTable][index]).addr])
      modifies this`pool, this`tables, ram[pageTable]
      ensures Represents()
      ensures tables == Unlinked(old(tables), pageTable, index)
    {
      hide Decode, AllClear;
      ghost var s := tables;
      var next := Decode(ram[pageTable][index]).addr;
      assert Decode(ram[pageTable][..][index]) == s.mem[pageTable][index];
      ZeroIsClear(ZERO);
      ram[pageTable][index] := ZERO;
      pool := pool + {next};
      tables := Unlinked(s, pageTable, index);
    }

    /** arm64_mmu_unmap_pt: the loop of lines 328 to 366. */
    method UnmapPt(vaddrIn: nat, vaddrRelIn: nat, sizeIn: nat, indexShift: nat, pageTable: nat)
      requires Ok() && pageTable in tables.mem
      requires indexShift == IndexShift(g, tables.place[pageTable].level)
      requires vaddrIn == vaddrBase + tables.place[pageTable].base + vaddrRelIn
      requires vaddrRelIn + sizeIn <= Times(ram[pageTable].Length, Pow2(indexShift))
      modifies this`pool, this`tables, this`tlb, repr
      ensures Ok()
      ensures UnmappedUpTo(old(tables), tables, pageTable, vaddrIn - vaddrBase, vaddrIn - vaddrBase + sizeIn)
      ensures Swept(old(tables), tables, old(tables).place[pageTable].level, vaddrIn - vaddrBase,
                    vaddrIn - vaddrBase + sizeIn)
      ensures sizeIn == 0 ==> tables == old(tables)
      decreases tables.place[pageTable].level, 2
    {
      hide *;
      OkTable(pageTable);
      ghost var s0 := tables;
      ghost var lo := vaddrIn - vaddrBase;
      ghost var mid := lo;
      var vaddr: nat, vaddrRel: nat, size: nat := vaddrIn, vaddrRelIn, sizeIn;
      NothingUnmapped(s0, pageTable, lo);
      SweptNothing(s0, s0.place[pageTable].level, lo);
      while size > 0
        invariant Ok()
        invariant lo <= mid && mid + vaddrBase == vaddr
        invariant vaddr + size == vaddrIn + sizeIn && vaddrRel + size == vaddrRelIn + sizeIn
        invariant UnmappedUpTo(s0, tables, pageTable, lo, mid)
        invariant Swept(s0, tables, s0.place[pageTable].level, lo, mid)
        invariant sizeIn == 0 ==> tables == s0
        invariant size > 0 ==> mid == lo || Rem(vaddrRel, Pow2(indexShift)) == 0
      {
        var blockSize := Pow2(indexShift);
        var vaddrRem := Rem(vaddrRel, blockSize);
        var chunkSize := Min(size, blockSize - vaddrRem);
        var index := Quot(vaddrRel, blockSize);
        ghost var s1 := tables;
        UnmappedTable(s0, s1, pageTable, lo, mid);
        OkTable(pageTable);
        ChunkInSlot(s1, pageTable, vaddrRel, size, blockSize, vaddrRem, chunkSize, index);
        UnmapChunk(vaddr, vaddrRem, chunkSize, index, indexShift, pageTable);
        TakeUnmapTurn(s0, s1, tables, pageTable, index, lo, mid, mid + chunkSize);
        SweptThen(s0, s1, tables, s0.place[pageTable].level, lo, mid, mid + chunkSize);
        mid := mid + chunkSize;
        vaddr := vaddr + chunkSize;
        vaddrRel := vaddrRel + chunkSize;
        size := size - chunkSize;
      }
    }

    /** arm64_mmu_unmap_pt: one turn of the loop, lines 335 to 362. */
    method UnmapChunk(vaddr: nat, vaddrRem: nat, chunkSize: nat, index: nat, indexShift: nat, pageTable: nat)
      requires Ok() && pageTable in tables.mem && index < ram[pageTable].Length
      requires indexShift == IndexShift(g, tables.place[pageTable].level)
      requires vaddr == vaddrBase + SlotBase(tables, pageTable, index) + vaddrRem
      requires 0 < chunkSize && vaddrRem + chunkSize <= Pow2(indexShift)
      modifies this`pool, this`tables, this`tlb, repr
      ensures Ok()
      ensures UnmapTurn(old(tables), tables, pageTable, index, vaddr - vaddrBase, vaddr - vaddrBase + chunkSize)
      ensures Swept(old(tables), tables, old(tables).place[pageTable].level, vaddr - vaddrBase,
                    vaddr - vaddrBase + chunkSize)
      decreases tables.place[pageTable].level, 1
    {
      hide Decode, TlbCurrent, UnmapTurn, Swept;
      ghost var s := tables;
      ghost var cur := vaddr - vaddrBase;
      var word := ram[pageTable][index];
      var pte := Decode(word);
      assert pte == s.mem[pageTable][index];
      ZeroIsClear(word);
      SlotKinds(s, pageTable, index);
      if indexShift > g.pageShift && pte.desc == DESC_TABLE {
        UnmapBelow(vaddr, vaddrRem, chunkSize, index, indexShift, pageTable);
      } else if word != ZERO {
        UnmapTurnLeaf(s, pageTable, index, cur, cur + chunkSize);
        SweptLeaf(s, pageTable, index, cur, cur + chunkSize);
        TlbAfterUnmapLeaf(s, pageTable, index, tlb, cur);
        ClearEntry(pageTable, index);
        Tlbi(vaddr);
      } else {
        UnmapTurnClear(s, pageTable, index, cur, cur + chunkSize);
        SweptClear(s, pageTable, index, cur, cur + chunkSize);
      }
    }

    /** arm64_mmu_unmap_pt: the turn that meets a table, lines 339 to 351. */
    method UnmapBelow(vaddr: nat, vaddrRem: nat, chunkSize: nat, index: nat, indexShift: nat, pageTable: nat)
      requires Ok() && pageTable in tables.mem && index < ram[pageTable].Length
      requires indexShift == IndexShift(g, tables.place[pageTable].level)
      requires vaddr == vaddrBase + SlotBase(tables, pageTable, index) + vaddrRem
      requires 0 < chunkSize && vaddrRem + chunkSize <= Pow2(indexShift)
      requires IsTable(tables.place[pageTable].level, Decode(ram[pageTable][index]))
      modifies this`pool, this`tables, this`tlb, repr
      ensures Ok()
      ensures UnmapTurn(old(tables), tables, pageTable, index, vaddr - vaddrBase, vaddr - vaddrBase + chunkSize)
      ensures Swept(old(tables), tables, old(tables).place[pageTable].level, vaddr - vaddrBase,
                    vaddr - vaddrBase + chunkSize)
      decreases tables.place[pageTable].level, 0
    {
      hide *;
      ghost var s := tables;
      ghost var cur := vaddr - vaddrBase;
      OkTable(pageTable);
      EntryIs(pageTable, index);
      var next := Decode(ram[pageTable][index]).addr;
      ChunkBehind(s, pageTable, index, cur, vaddrRem, chunkSize);
      OkTable(next);
      UnmapPt(vaddr, vaddrRem, chunkSize, indexShift - (g.pageShift - 3), next);
      ghost var s1 := tables;
      ChildIsDone(s, s1, pageTable, index, cur, cur + chunkSize);
      ReclaimTable(chunkSize == Pow2(indexShift), index, pageTable, s, cur, cur + chunkSize);
      SweptBelow(s, s1, tables, pageTable, index, cur, cur + chunkSize);
    }

    /** arm64_mmu_unmap_pt, lines 345 to 351: a table that became clear is freed. */
    method ReclaimTable(whole: bool, index: nat, pageTable: nat, ghost s: Tables, ghost cur: nat, ghost end: nat)
      requires Ok() && ChildDone(s, tables, pageTable, index, cur, end)
      requires whole <==> end - cur == BlockSize(g, s.place[pageTable].level)
      modifies this`pool, this`tables, repr
      ensures Ok() && UnmapTurn(s, tables, pageTable, index, cur, end)
      ensures ReclaimedIfClear(old(tables), tables, pageTable, index)
    {
      hide UnmapTurn, ChildDone, TlbCurrent, AboveKept, Valid, Decode;
      ChildLinked(s, tables, pageTable, index, cur, end);
      assert Decode(ram[pageTable][index]) == tables.mem[pageTable][index];
      var clear := whole;
      if !clear {
        clear := PageTableIsClear(Decode(ram[pageTable][index]).addr);
      } else {
        ChildCleared(s, tables, pageTable, index, cur, end);
      }
      if clear {
        UnmapTurnUnlink(s, tables, pageTable, index, cur, end);
        TlbAfterUnlink(tables, pageTable, index, tlb);
        UnlinkAndFree(pageTable, index);
      } else {
        UnmapTurnKeep(s, tables, pageTable, index, cur, end);
      }
    }

    /** arm64_mmu_map_pt, lines 404 to 433: one turn of the loop. */
    method MapChunk(vaddr: nat, vaddrRem: nat, paddr: nat, chunkSize: nat, attrs: AttrBits, index: nat,
                    indexShift: nat, pageTable: nat, ghost s0: Tables, ghost r: Request)
      returns (ok: bool)
      requires Ok() && pageTable in tables.mem && index < ram[pageTable].Length
      requires indexShift == IndexShift(g, tables.place[pageTable].level)
      requires vaddr >= vaddrBase && attrs == r.attrs
      requires ReqFits(r)
      requires ChunkReady(s0, tables, r, pageTable, index, vaddr - vaddrBase, vaddrRem, paddr, chunkSize)
      modifies this`pool, this`allocs, this`refusals, this`tables, this`tlb, repr
      ensures Ok()
      ensures ok ==> MapState(s0, tables, r, pageTable, vaddr - vaddrBase + chunkSize)
      ensures !ok ==> FailState(s0, tables, r, pageTable, vaddr - vaddrBase)
      ensures refusals >= old(refusals) && (ok ==> refusals == old(refusals))
      ensures !ok && refusals == old(refusals) ==> Blocked(s0, r, s0.place[pageTable].level)
      ensures Tally(grants, old(allocs), old(Free()), allocs, Free(),
                    |Missing(old(tables), r, old(tables).place[pageTable].level, vaddr - vaddrBase,
                             vaddr - vaddrBase + chunkSize)|, ok, refusals != old(refusals))
      ensures Reshaped(old(tables), tables, vaddr - vaddrBase, vaddr - vaddrBase + chunkSize, ok)
      ensures chunkSize == BlockSize(g, 0) ==>
                PageStopped(old(tables), tables, pageTable, index, old(Granted()), grants(old(allocs) + 1), ok)
      decreases tables.place[pageTable].level, 1
    {
      hide *;
      var blockSize := Pow2(indexShift);
      OkTable(pageTable);
      WhichTurn(s0, tables, r, pageTable, index, vaddr - vaddrBase, vaddrRem, paddr, chunkSize, blockSize);
      if vaddrRem != 0 || Rem(paddr, blockSize) != 0 || chunkSize != blockSize || indexShift > BLOCK_MAX_SHIFT {
        ok := MapBelow(vaddr, vaddrRem, paddr, chunkSize, attrs, index, indexShift, pageTable, s0, r);
      } else {
        ghost var s := tables;
        ok := MapLeaf(vaddr, paddr, chunkSize, attrs, index, indexShift, pageTable, s0, r);
        LeafTally(s0, s, r, pageTable, index, vaddr - vaddrBase, paddr, chunkSize, grants, allocs, Free(), ok);
      }
    }

    /** arm64_mmu_map_pt, lines 418 to 432: a block or page, if the slot is free. */
    method MapLeaf(vaddr: nat, paddr: nat, chunkSize: nat, attrs: AttrBits, index: nat, indexShift: nat, pageTable: nat,
                   ghost s0: Tables, ghost r: Request)
      returns (ok: bool)
      requires Ok() && pageTable in tables.mem && index < ram[pageTable].Length
      requires indexShift == IndexShift(g, tables.place[pageTable].level)
      requires vaddr >= vaddrBase && attrs == r.attrs
      requires LeafReady(s0, tables, r, pageTable, index, vaddr - vaddrBase, paddr, chunkSize)
      modifies this`tables, repr
      ensures Ok()
      ensures ok ==> MapState(s0, tables, r, pageTable, vaddr - vaddrBase + chunkSize)
      ensures !ok ==> FailState(s0, tables, r, pageTable, vaddr - vaddrBase)
      ensures !ok ==> Blocked(s0, r, s0.place[pageTable].level)
      ensures Reshaped(old(tables), tables, vaddr - vaddrBase, vaddr - vaddrBase + chunkSize, ok)
      ensures forall first, second ::
                chunkSize == BlockSize(g, 0) ==> PageStopped(old(tables), tables, pageTable, index, first, second, ok)
    {
      hide MapState, FailState, ChunkOf, Blocked, TlbCurrent, PageStopped, TakesLeaf, Decode, LeafReady, Reshaped;
      ghost var s := tables;
      ghost var mid := vaddr - vaddrBase;
      LeafFitsHere(s0, s, r, pageTable, index, mid, paddr, chunkSize);
      var word := ram[pageTable][index];
      assert Decode(word) == s.mem[pageTable][index];
      ZeroIsClear(word);
      if word != ZERO {
        SameShapeFailed(s, mid, mid + chunkSize);
        LeafBlocked(s0, s, r, pageTable, index, mid, mid + chunkSize);
        ok := false;
      } else {
        var pte := Pte(if indexShift > g.pageShift then DESC_BLOCK else DESC_PAGE, paddr, attrs);
        MapTurnLeaf(s0, s, r, pageTable, index, mid, mid + chunkSize, pte);
        ReshapedLeaf(s, pageTable, index, pte, mid, mid + chunkSize);
        TlbAfterWrite(s, pageTable, index, pte, tlb);
        WriteEntry(pageTable, index, pte);
        ok := true;
      }
      forall first, second
        ensures chunkSize == BlockSize(g, 0) ==> PageStopped(s, tables, pageTable, index, first, second, ok)
      {
        LeafIsNoPageStop(s, tables, pageTable, index, chunkSize, first, second, ok);
      }
    }

    /** The table behind a slot, with the TLB in view. */
    method Descend(index: nat, pageTable: nat) returns (found: bool, next: nat)
      requires Ok() && pageTable in tables.mem && index < ram[pageTable].Length && tables.place[pageTable].level > 0
      modifies this`pool, this`allocs, this`refusals, this`tables, repr
      ensures Ok() && tables.g == g == old(tables).g
      ensures pageTable in old(tables).mem && index < |old(tables).mem[pageTable]|
      ensures Tally(grants, old(allocs), old(Free()), allocs, Free(),
                    if old(tables).mem[pageTable][index] == CLEAR then 1 else 0, found, refusals != old(refusals))
      ensures refusals >= old(refusals) && (found ==> refusals == old(refusals))
      ensures found ==> Descends(old(tables), tables, pageTable, index, next)
      ensures found ==> next in tables.mem && next in ram && ram[next].Length == |tables.mem[next]|
      ensures !found ==> tables == old(tables)
      ensures old(tables).mem[pageTable][index] == CLEAR ==> allocs == old(allocs) + 1 && found == old(Granted())
      ensures old(tables).mem[pageTable][index] == CLEAR && found ==>
                next !in old(tables).mem && tables == Linked(old(tables), pageTable, index, next)
      ensures !found ==> if tables.mem[pageTable][index] == CLEAR then refusals > old(refusals)
                         else refusals == old(refusals)
                              && IsLeaf(tables.place[pageTable].level, tables.mem[pageTable][index])
    {
      hide Descends, TlbCurrent, Decode, Tally, Free;
      ghost var s := tables;
      SlotKinds(s, pageTable, index);
      NothingAsked(grants, allocs, Free(), 0, true);
      NothingAsked(grants, allocs, Free(), 0, false);
      found, next := GetPageTable(index, pageTable);
      if found {
        GotTableDescends(s, tables, pageTable, index, next, false);
        TlbAfterDescent(s, tables, pageTable, index, next, tlb);
        DescendsTo(s, tables, pageTable, index, next);
      }
    }

    /** arm64_mmu_map_pt, lines 407 to 416: the part of the request below one slot. */
    method MapBelow(vaddr: nat, vaddrRem: nat, paddr: nat, chunkSize: nat, attrs: AttrBits, index: nat,
                    indexShift: nat, pageTable: nat, ghost s0: Tables, ghost r: Request)
      returns (ok: bool)
      requires Ok() && pageTable in tables.mem && index < ram[pageTable].Length
      requires indexShift == IndexShift(g, tables.place[pageTable].level) && tables.place[pageTable].level > 0
      requires vaddr >= vaddrBase && attrs == r.attrs
      requires BelowReady(s0, tables, r, pageTable, index, vaddr - vaddrBase, vaddrRem, paddr, chunkSize)
      modifies this`pool, this`allocs, this`refusals, this`tables, this`tlb, repr
      ensures Ok()
      ensures ok ==> MapState(s0, tables, r, pageTable, vaddr - vaddrBase + chunkSize)
      ensures !ok ==> FailState(s0, tables, r, pageTable, vaddr - vaddrBase)
      ensures refusals >= old(refusals) && (ok ==> refusals == old(refusals))
      ensures !ok && refusals == old(refusals) ==> Blocked(s0, r, s0.place[pageTable].level)
      ensures Tally(grants, old(allocs), old(Free()), allocs, Free(),
                    |Missing(old(tables), r, old(tables).place[pageTable].level, vaddr - vaddrBase,
                             vaddr - vaddrBase + chunkSize)|, ok, refusals != old(refusals))
      ensures Reshaped(old(tables), tables, vaddr - vaddrBase, vaddr - vaddrBase + chunkSize, ok)
      ensures chunkSize == BlockSize(g, 0) ==>
                PageStopped(old(tables), tables, pageTable, index, old(Granted()), grants(old(allocs) + 1), ok)
      decreases tables.place[pageTable].level, 0
    {
      hide *;
      ghost var s := tables;
      ghost var mid := vaddr - vaddrBase;
      ghost var refusals0, first, second := refusals, Granted(), grants(allocs + 1);
      ghost var a0, n0 := allocs, Free();
      var next;
      ok, next := Descend(index, pageTable);
      if !ok {
        NoDescent(s0, s, r, pageTable, index, mid, vaddrRem, paddr, chunkSize, refusals != refusals0, first, second);
        NoDescentShape(s0, s, r, pageTable, index, mid, vaddrRem, paddr, chunkSize);
        NoDescentTally(s0, s, r, pageTable, index, mid, vaddrRem, paddr, chunkSize, grants, a0, n0, allocs, Free(),
                       refusals != refusals0);
        return;
      }
      ghost var s1 := tables;
      DescentReady(s0, s, s1, r, pageTable, index, next, mid, vaddrRem, paddr, chunkSize);
      GrantedOne();
      ghost var a1, n1 := allocs, Free();
      ghost var again, third := Granted(), grants(allocs + 1);
      var ret := MapPt(vaddr, vaddrRem, paddr, chunkSize, attrs, indexShift - (g.pageShift - 3), next);
      ok := ret == NO_ERROR;
      TurnBelowDone(s0, s, s1, tables, r, pageTable, index, next, mid, vaddrRem, paddr, chunkSize, ok,
                    refusals != refusals0, first, again, second, third);
      BelowShape(s0, s, s1, tables, r, pageTable, index, next, mid, vaddrRem, paddr, chunkSize, ok);
      BelowTally(s0, s, s1, r, pageTable, index, next, mid, vaddrRem, paddr, chunkSize, grants, a0, n0, a1, n1,
                 allocs, Free(), ok, refusals != refusals0);
    }

    /** arm64_mmu_map_pt, lines 443 to 445: undo what was mapped before the failure. */
    method RollBack(vaddrIn: nat, vaddrRelIn: nat, done: nat, indexShift: nat, pageTable: nat,
                    ghost s0: Tables, ghost r: Request, ghost mid: nat, ghost refused: bool)
      requires Ok() && pageTable in tables.mem
      requires indexShift == IndexShift(g, tables.place[pageTable].level)
      requires vaddrIn == vaddrBase + tables.place[pageTable].base + vaddrRelIn
      requires vaddrRelIn + done <= Times(ram[pageTable].Length, Pow2(indexShift))
      requires vaddrIn == vaddrBase + r.lo && mid == r.lo + done
      requires FailState(s0, tables, r, pageTable, mid)
      requires !refused ==> Blocked(s0, r, s0.place[pageTable].level)
      modifies this`pool, this`tables, this`tlb, repr
      ensures Ok() && MapResult(s0, tables, r, pageTable, false, refused)
      ensures Swept(old(tables), tables, old(tables).place[pageTable].level, r.lo, mid)
      ensures done == 0 ==> tables == old(tables)
    {
      hide FailState, MapResult, UnmappedUpTo, TlbCurrent, Blocked, Swept;
      ghost var s1 := tables;
      UnmapPt(vaddrIn, vaddrRelIn, done, indexShift, pageTable);
      ResultOfFailure(s0, s1, tables, r, pageTable, mid, refused);
    }

    /** arm64_mmu_map_pt */
    method MapPt(vaddrIn: nat, vaddrRelIn: nat, paddrIn: nat, sizeIn: nat, attrs: AttrBits,
                 indexShift: nat, pageTable: nat) returns (ret: int)
      requires Ok() && pageTable in tables.mem
      requires indexShift == IndexShift(g, tables.place[pageTable].level)
      requires vaddrIn == vaddrBase + tables.place[pageTable].base + vaddrRelIn
      requires vaddrRelIn + sizeIn <= Times(ram[pageTable].Length, Pow2(indexShift))
      requires paddrIn + sizeIn <= PHYS_LIMIT && AttrsFit(attrs)
      modifies this`pool, this`allocs, this`refusals, this`tables, this`tlb, repr
      ensures Ok()
      ensures ret == ERR_INVALID_ARGS <==> !PageAligned(g, vaddrRelIn, paddrIn, sizeIn)
      ensures ret == ERR_INVALID_ARGS ==> tables == old(tables)
      ensures ret in {NO_ERROR, ERR_GENERIC, ERR_INVALID_ARGS}
      ensures ret != ERR_INVALID_ARGS ==>
                var lo := vaddrIn - vaddrBase;
                MapResult(old(tables), tables, Request(lo, lo + sizeIn, paddrIn, attrs), pageTable, ret == NO_ERROR,
                          refusals != old(refusals))
      ensures ret != ERR_INVALID_ARGS ==>
                var lo := vaddrIn - vaddrBase;
              Tally(grants, old(allocs), old(Free()), allocs, Free(),
                    |Missing(old(tables), Request(lo, lo + sizeIn, paddrIn, attrs), old(tables).place[pageTable].level,
                             lo, lo + sizeIn)|, ret == NO_ERROR, refusals != old(refusals))
      ensures ret == ERR_INVALID_ARGS ==> allocs == old(allocs) && pool == old(pool)
      ensures Reshaped(old(tables), tables, vaddrIn - vaddrBase, vaddrIn - vaddrBase + sizeIn, ret == NO_ERROR)
      ensures refusals >= old(refusals) && (ret == NO_ERROR ==> refusals == old(refusals))
      ensures ret != ERR_INVALID_ARGS && sizeIn == BlockSize(g, 0) ==>
                PageStopped(old(tables), tables, pageTable, Quot(vaddrRelIn, Pow2(indexShift)), old(Granted()),
                            grants(old(allocs) + 1), ret == NO_ERROR)
      decreases tables.place[pageTable].level, 4
    {
      hide MapResult, TlbCurrent, PageStopped, Tally, Missing, Free, Reshaped;
      ret := ERR_INVALID_ARGS;
      SameShapeFailed(tables, vaddrIn - vaddrBase, vaddrIn - vaddrBase + sizeIn);
      var page := Pow2(g.pageShift);
      if Rem(vaddrRelIn, page) != 0 || Rem(paddrIn, page) != 0 || Rem(sizeIn, page) != 0 {
        return;
      }
      var ok := MapAligned(vaddrIn, vaddrRelIn, paddrIn, sizeIn, attrs, indexShift, pageTable);
      ret := if ok then NO_ERROR else ERR_GENERIC;
    }

    /** arm64_mmu_map_pt, lines 397 to 446: the loop, and the way out of it. */
    method MapAligned(vaddrIn: nat, vaddrRelIn: nat, paddrIn: nat, sizeIn: nat, attrs: AttrBits,
                      indexShift: nat, pageTable: nat) returns (ok: bool)
      requires Ok() && pageTable in tables.mem
      requires indexShift == IndexShift(g, tables.place[pageTable].level)
      requires vaddrIn == vaddrBase + tables.place[pageTable].base + vaddrRelIn
      requires vaddrRelIn + sizeIn <= Times(ram[pageTable].Length, Pow2(indexShift))
      requires paddrIn + sizeIn <= PHYS_LIMIT && AttrsFit(attrs)
      requires PageAligned(g, vaddrRelIn, paddrIn, sizeIn)
      modifies this`pool, this`allocs, this`refusals, this`tables, this`tlb, repr
      ensures Ok()
      ensures var lo := vaddrIn - vaddrBase;
              MapResult(old(tables), tables, Request(lo, lo + sizeIn, paddrIn, attrs), pageTable, ok,
                        refusals != old(refusals))
      ensures var lo := vaddrIn - vaddrBase;
              Tally(grants, old(allocs), old(Free()), allocs, Free(),
                    |Missing(old(tables), Request(lo, lo + sizeIn, paddrIn, attrs), old(tables).place[pageTable].level,
                             lo, lo + sizeIn)|, ok, refusals != old(refusals))
      ensures Reshaped(old(tables), tables, vaddrIn - vaddrBase, vaddrIn - vaddrBase + sizeIn, ok)
      ensures refusals >= old(refusals) && (ok ==> refusals == old(refusals))
      ensures sizeIn == BlockSize(g, 0) ==>
                PageStopped(old(tables), tables, pageTable, Quot(vaddrRelIn, Pow2(indexShift)), old(Granted()),
                            grants(old(allocs) + 1), ok)
      decreases tables.place[pageTable].level, 3
    {
      hide *;
      OkTable(pageTable);
      ok := true;
      ghost var a0, n0 := allocs, Free();
      ghost var s0, first, second := tables, Granted(), grants(allocs + 1);
      ghost var mid := vaddrIn - vaddrBase;
      ghost var r := Request(mid, mid + sizeIn, paddrIn, attrs);
      ghost var slot := Quot(vaddrRelIn, Pow2(indexShift));
      var vaddr: nat, vaddrRel: nat, paddr: nat, size: nat := vaddrIn, vaddrRelIn, paddrIn, sizeIn;
      TurnsStart(s0, r, pageTable, vaddrRel, Pow2(indexShift), slot, first, second);
      SameShape(s0, r.lo, r.lo);
      SoFarStart(s0, r, pageTable, grants, a0, n0);
      while size > 0
        invariant Ok() && refusals == old(refusals)
        invariant pageTable in tables.mem && pageTable in s0.place && pageTable in tables.place
        invariant tables.place[pageTable] == s0.place[pageTable]
        invariant mid >= r.lo && mid + vaddrBase == vaddr && vaddr + size == vaddrIn + sizeIn
        invariant mid == r.lo ==> tables == s0 && Granted() == first && grants(allocs + 1) == second
        invariant Turns(s0, tables, r, pageTable, mid, vaddrRel, paddr, size, Pow2(indexShift), slot, first, second)
        invariant Reshaped(s0, tables, r.lo, mid, true)
        invariant SoFar(s0, r, pageTable, mid, grants, a0, n0, allocs, Free())
      {
        var chunkSize;
        ok, chunkSize := MapTurn(vaddr, vaddrRel, paddr, size, attrs, indexShift, pageTable, s0, r, slot, first, second,
                                 a0, n0);
        if !ok {
          ghost var n, s2 := Free(), tables;
          RollBack(vaddrIn, vaddrRelIn, sizeIn - size, indexShift, pageTable, s0, r, mid, refusals != old(refusals));
          assert MapResult(s0, tables, r, pageTable, ok, refusals != old(refusals));
          FailedShape(s0, s2, tables, s0.place[pageTable].level, r.lo, mid, r.hi);
          TallyFailed(grants, a0, n0, allocs, n, Free(), |Missing(s0, r, s0.place[pageTable].level, r.lo, r.hi)|,
                      |Missing(s0, r, s0.place[pageTable].level, r.lo, r.hi)|, refusals != old(refusals));
          return;
        }
        mid := mid + chunkSize;
        vaddr := vaddr + chunkSize;
        vaddrRel := vaddrRel + chunkSize;
        paddr := paddr + chunkSize;
        size := size - chunkSize;
      }
      TurnsEnd(s0, tables, r, pageTable, mid, vaddrRel, paddr, Pow2(indexShift), slot, first, second,
               refusals != old(refusals));
      SoFarIs(s0, r, pageTable, mid, grants, a0, n0, allocs, Free());
    }

    /** arm64_mmu_map_pt, lines 398 to 433: the next chunk of the request. */
    method MapTurn(vaddr: nat, vaddrRel: nat, paddr: nat, size: nat, attrs: AttrBits, indexShift: nat, pageTable: nat,
                   ghost s0: Tables, ghost r: Request, ghost slot: nat, ghost first: bool, ghost second: bool,
                   ghost a0: nat, ghost n0: nat)
      returns (ok: bool, chunkSize: nat)
      requires Ok() && pageTable in tables.mem && vaddr >= vaddrBase && size > 0 && attrs == r.attrs
      requires indexShift == IndexShift(g, tables.place[pageTable].level)
      requires Turns(s0, tables, r, pageTable, vaddr - vaddrBase, vaddrRel, paddr, size, Pow2(indexShift),
                     slot, first, second)
      requires vaddr - vaddrBase == r.lo ==> Granted() == first && grants(allocs + 1) == second && tables == s0
      requires s0.g.Valid() && pageTable in s0.place
      requires Reshaped(s0, tables, r.lo, vaddr - vaddrBase, true)
      requires SoFar(s0, r, pageTable, vaddr - vaddrBase, grants, a0, n0, allocs, Free())
      modifies this`pool, this`allocs, this`refusals, this`tables, this`tlb, repr
      ensures Ok() && 0 < chunkSize <= size
      ensures pageTable in tables.mem && pageTable in tables.place && pageTable in old(tables).place
      ensures tables.place[pageTable] == old(tables).place[pageTable]
      ensures ok ==> SoFar(s0, r, pageTable, vaddr - vaddrBase + chunkSize, grants, a0, n0, allocs, Free())
      ensures !ok ==> Tally(grants, a0, n0, allocs, Free(), |Missing(s0, r, s0.place[pageTable].level, r.lo, r.hi)|, false,
                            refusals != old(refusals))
      ensures if ok then Reshaped(s0, tables, r.lo, vaddr - vaddrBase + chunkSize, true)
              else r.lo <= vaddr - vaddrBase <= r.hi && Reshaped(s0, tables, r.lo, r.hi, false)
      ensures refusals >= old(refusals) && (ok ==> refusals == old(refusals))
      ensures ok ==> Turns(s0, tables, r, pageTable, vaddr - vaddrBase + chunkSize, vaddrRel + chunkSize,
                           paddr + chunkSize, size - chunkSize, Pow2(indexShift), slot, first, second)
      ensures !ok ==> FailState(s0, tables, r, pageTable, vaddr - vaddrBase)
      ensures !ok && refusals == old(refusals) ==> Blocked(s0, r, s0.place[pageTable].level)
      ensures !ok && r.hi - r.lo == BlockSize(g, 0) ==>
                vaddr - vaddrBase == r.lo && PageStopped(s0, tables, pageTable, slot, first, second, false)
      decreases tables.place[pageTable].level, 2
    {
      hide *;
      OkTable(pageTable);
      var blockSize := Pow2(indexShift);
      var vaddrRem := Rem(vaddrRel, blockSize);
      chunkSize := Min(size, blockSize - vaddrRem);
      var index := Quot(vaddrRel, blockSize);
      ghost var s, mid := tables, vaddr - vaddrBase;
      TurnReady(s0, s, r, pageTable, mid, vaddrRel, paddr, size, blockSize, slot, first, second,
                vaddrRem, chunkSize, index);
      ghost var a1, n1 := allocs, Free();
      ok := MapChunk(vaddr, vaddrRem, paddr, chunkSize, attrs, index, indexShift, pageTable, s0, r);
      TurnShape(s0, s, tables, r, pageTable, index, mid, vaddrRem, paddr, chunkSize, ok);
      TurnTally(s0, s, r, pageTable, index, mid, vaddrRem, paddr, chunkSize, grants, a0, n0, a1, n1, allocs, Free(), ok,
                refusals != old(refusals));
      if ok {
        TurnDone(s0, s, tables, r, pageTable, mid, vaddrRel, paddr, size, blockSize, slot, first, second, chunkSize);
      } else {
        TurnFailed(s0, s, tables, r, pageTable, mid, vaddrRel, paddr, size, blockSize, slot, first, second);
      }
    }

    // ---- the entry points ----

    /** The range test of lines 461 and 488, on 64-bit words. */
    method InRange(vaddr: nat, size: nat) returns (ok: bool, vaddrRel: nat)
      requires Frames() && vaddr < WORD && size < WORD
      ensures vaddrRel == RelAddr(vaddr)
      ensures ok <==> vaddrRel + size <= Pow2(topSizeShift)
    {
      vaddrRel := RelAddr(vaddr);
      var max := Pow2(topSizeShift);
      ok := !(vaddrRel > (max - size) % WORD || size > max);
      Pow2Monotone(topSizeShift, 48);
      Pow2Of48();
    }

    /** vaddr - vaddr_base in 64-bit arithmetic. */
    function RelAddr(vaddr: nat): nat {
      (vaddr - vaddrBase) % WORD
    }

    ghost function RequestAt(vaddr: nat, paddr: nat, size: nat, attrs: AttrBits): Request {
      Request(RelAddr(vaddr), RelAddr(vaddr) + size, paddr, attrs)
    }

    /** arm64_mmu_map */
    method Map(vaddr: nat, paddr: nat, size: nat, attrs: AttrBits) returns (ret: int)
      requires Ok() && vaddr < WORD && size < WORD && AttrsFit(attrs)
      requires RelAddr(vaddr) + size <= Pow2(topSizeShift) ==> paddr + size <= PHYS_LIMIT
      modifies this`pool, this`allocs, this`refusals, this`tables, this`tlb, repr
      ensures Ok()
      ensures ret in {NO_ERROR, ERR_GENERIC, ERR_INVALID_ARGS}
      ensures ret == ERR_INVALID_ARGS <==>
                !(RelAddr(vaddr) + size <= Pow2(topSizeShift) && PageAligned(g, RelAddr(vaddr), paddr, size))
      ensures ret == ERR_INVALID_ARGS ==> tables == old(tables)
      ensures ret == NO_ERROR ==> Mapped(old(tables), tables, RequestAt(vaddr, paddr, size, attrs))
      ensures ret == ERR_GENERIC ==> TranslationsKept(old(tables), tables)
      ensures Reshaped(old(tables), tables, RelAddr(vaddr), RelAddr(vaddr) + size, ret == NO_ERROR)
      ensures refusals >= old(refusals)
      ensures ret != ERR_INVALID_ARGS ==>
                Tally(grants, old(allocs), old(Free()), allocs, Free(),
                      TablesNeeded(old(tables), RequestAt(vaddr, paddr, size, attrs)), ret == NO_ERROR,
                      refusals != old(refusals))
      ensures ret != ERR_INVALID_ARGS ==>
                (ret == NO_ERROR <==>
                 && !Blocked(old(tables), RequestAt(vaddr, paddr, size, attrs), g.topLevel)
                 && AllGranted(grants, old(allocs), old(Free()),
                               old(allocs) + TablesNeeded(old(tables), RequestAt(vaddr, paddr, size, attrs))))
      ensures ret == ERR_INVALID_ARGS ==> allocs == old(allocs) && pool == old(pool)
      ensures ret != ERR_INVALID_ARGS && size == BlockSize(g, 0) ==>
                PageStopped(old(tables), tables, root, Quot(RelAddr(vaddr), BlockSize(g, g.topLevel)), old(Granted()),
                            grants(old(allocs) + 1), ret == NO_ERROR)
    {
      hide MapResult, TlbCurrent, Blocked, Mapped, TranslationsKept, PageAligned, PageStopped, Tally, Missing, AllGranted, Free, Reshaped;
      SameShapeFailed(tables, RelAddr(vaddr), RelAddr(vaddr) + size);
      var ok, vaddrRel := InRange(vaddr, size);
      if !ok {
        return ERR_INVALID_ARGS;
      }
      RootCovers(tables);
      ghost var s0 := tables;
      // vaddr itself, not reduced to 64 bits
      ret := MapPt(vaddrBase + vaddrRel, vaddrRel, paddr, size, attrs, IndexShift(g, g.topLevel), root);
      if ret != ERR_INVALID_ARGS {
        ResultAtRoot(s0, tables, Request(vaddrRel, vaddrRel + size, paddr, attrs), ret == NO_ERROR,
                     refusals != old(refusals));
        GrantedIff(grants, old(allocs), old(Free()), allocs, Free(),
                   TablesNeeded(s0, Request(vaddrRel, vaddrRel + size, paddr, attrs)), ret == NO_ERROR,
                   refusals != old(refusals), Blocked(s0, Request(vaddrRel, vaddrRel + size, paddr, attrs), g.topLevel));
      }
    }

    /** arm64_mmu_unmap */
    method Unmap(vaddr: nat, size: nat) returns (ret: int)
      requires Ok() && vaddr < WORD && size < WORD
      modifies this`pool, this`tables, this`tlb, repr
      ensures Ok()
      ensures ret == if RelAddr(vaddr) + size <= Pow2(topSizeShift) then NO_ERROR else ERR_INVALID_ARGS
      ensures ret != NO_ERROR ==> tables == old(tables)
      ensures ret == NO_ERROR ==>
                Swept(old(tables), tables, g.topLevel, RelAddr(vaddr), RelAddr(vaddr) + size)
      ensures ret == NO_ERROR ==> Unmapped(old(tables), tables, RelAddr(vaddr), RelAddr(vaddr) + size)
    {
      hide TlbCurrent, Swept, Unmapped, SlotsCleared;
      var ok, vaddrRel := InRange(vaddr, size);
      if !ok {
        return ERR_INVALID_ARGS;
      }
      RootCovers(tables);
      UnmapPt(vaddrBase + vaddrRel, vaddrRel, size, IndexShift(g, g.topLevel), root);
      return NO_ERROR;
    }

    /** Map and then unmap the same range. */
    method MapThenUnmap(vaddr: nat, paddr: nat, size: nat, attrs: AttrBits) returns (ret: int)
      requires Ok() && vaddr < WORD && size < WORD && AttrsFit(attrs)
      requires RelAddr(vaddr) + size <= Pow2(topSizeShift) ==> paddr + size <= PHYS_LIMIT
      modifies this`pool, this`allocs, this`refusals, this`tables, this`tlb, repr
      ensures Ok()
      ensures ret == NO_ERROR && NoClearTables(old(tables)) ==> tables == old(tables) && pool == old(pool)
    {
      hide *;
      ghost var s0 := tables;
      OkTree();
      ret := Map(vaddr, paddr, size, attrs);
      if ret == NO_ERROR {
        ghost var s1 := tables;
        OkTree();
        var done := Unmap(vaddr, size);
        OkTree();
        if NoClearTables(s0) {
          RequestIs(vaddr, paddr, size, attrs);
          SameTablesAgain(s0, s1, tables, RequestAt(vaddr, paddr, size, attrs));
        }
      }
    }

    lemma RequestIs(vaddr: nat, paddr: nat, size: nat, attrs: AttrBits)
      ensures RequestAt(vaddr, paddr, size, attrs).lo == RelAddr(vaddr)
      ensures RequestAt(vaddr, paddr, size, attrs).hi == RelAddr(vaddr) + size
      ensures NO_ERROR != ERR_INVALID_ARGS
    {
    }

    lemma OkTree()
      requires Ok()
      ensures Valid(tables) && tables.g == g && g.Valid() && pool == ram.Keys - tables.mem.Keys
    {
    }

    /** arch_mmu_query, lines 139 to 170: the walk, with the descriptor it ends at. */
    method Query(vaddr: nat) returns (ret: int, paddr: nat, pte: PteWord)
      requires Ok() && vaddr < WORD && RelAddr(vaddr) < Pow2(topSizeShift)
      ensures ret == if PageTable.Query(tables, RelAddr(vaddr)).Hit? then NO_ERROR else ERR_NOT_FOUND
      ensures ret == NO_ERROR ==> paddr == PageTable.Query(tables, RelAddr(vaddr)).pa
      ensures ret == NO_ERROR ==> Decode(pte).attrs == PageTable.Query(tables, RelAddr(vaddr)).attrs
    {
      paddr, pte := 0, ZERO;
      var vaddrRem: nat := RelAddr(vaddr);
      ghost var va: nat := vaddrRem;
      var pageTable, indexShift := root, IndexShift(g, g.topLevel);
      ghost var level := g.topLevel;
      RootCovers(tables);
      while true
        invariant Ok() && pageTable in tables.mem && level == tables.place[pageTable].level
        invariant indexShift == IndexShift(g, level)
        invariant InTable(tables, pageTable, va) && vaddrRem == va - tables.place[pageTable].base
        decreases level
      {
        var index := Quot(vaddrRem, Pow2(indexShift));
        ghost var i := SlotOf(tables, pageTable, va);
        QueryInSlot(tables, pageTable, i, va);
        SlotKinds(tables, pageTable, i);
        vaddrRem := Rem(vaddrRem, Pow2(indexShift));
        pte := ram[pageTable][index];
        var e := Decode(pte);
        assert e == tables.mem[pageTable][i];
        if e.desc == DESC_INVALID {
          return ERR_NOT_FOUND, 0, pte;
        }
        if e.desc == if indexShift > g.pageShift then DESC_BLOCK else DESC_PAGE {
          return NO_ERROR, e.addr + vaddrRem, pte;
        }
        ChildFits(tables, pageTable, i);
        ChildCoversSlot(tables, pageTable, i, va);
        pageTable := e.addr;
        indexShift := indexShift - (g.pageShift - 3);
        level := level - 1;
      }
    }

    /** The walker may cache any current translation, at any time. */
    ghost method TlbFill(va: nat)
      requires Ok() && PageTable.Query(tables, va).Hit?
      modifies this`tlb
      ensures Ok() && tlb == old(tlb) + {TlbEntry(va, PageTable.Query(tables, va))}
    {
      tlb := tlb + {TlbEntry(va, PageTable.Query(tables, va))};
    }

    // ---- the machine-independent interface ----

    /** IS_PAGE_ALIGNED, and count * PAGE_SIZE. */
    predicate IsPageAligned(addr: nat)
      requires pageSize > 0
    {
      addr % pageSize == 0
    }

    function SizeOf(count: nat): (size: nat)
      ensures count == 0 ==> size == 0
    {
      count * pageSize
    }

    lemma RelOfValid(vaddr: nat)
      requires Frames() && vaddr < WORD && IsValidVaddr(vaddr)
      ensures RelAddr(vaddr) == vaddr - vaddrBase && pageSize > 0
    {
    }

    predicate IsValidVaddr(vaddr: nat) {
      aspaceBase <= vaddr <= aspaceBase + aspaceSize - 1
    }

    ghost function RequestOf(vaddr: nat, paddr: nat, count: nat, flags: bv32): Request
      requires Frames() && IsValidVaddr(vaddr)
    {
      var lo := vaddr - vaddrBase;
      Request(lo, lo + SizeOf(count), paddr, AttrBits(FlagsToAttr(flags)))
    }

    /** The valid addresses are those of the address space; page-aligned are the multiples of the page size. */
    lemma ValidRange(vaddr: nat, count: nat)
      requires Frames()
      ensures IsValidVaddr(vaddr) <==> aspaceBase <= vaddr < aspaceBase + aspaceSize
      ensures IsPageAligned(vaddr) <==> exists n: nat :: vaddr == n * pageSize
      ensures SizeOf(count + 1) == SizeOf(count) + pageSize && SizeOf(0) == 0
    {
      if IsPageAligned(vaddr) {
        assert vaddr == (vaddr / pageSize) * pageSize;
      }
      forall n: nat | vaddr == n * pageSize
        ensures IsPageAligned(vaddr)
      {
        MultipleIsAligned(n, pageSize);
      }
    }

    /** arch_mmu_map */
    method ArchMap(vaddr: nat, paddr: nat, count: nat, flags: bv32) returns (ret: int)
      requires Ok() && vaddr < WORD && SizeOf(count) < WORD && flags & FLAG_CACHE_MASK != 3
      requires IsValidVaddr(vaddr) && vaddr - vaddrBase + SizeOf(count) <= Pow2(topSizeShift) ==>
                 paddr + SizeOf(count) <= PHYS_LIMIT
      modifies this`pool, this`allocs, this`refusals, this`tables, this`tlb, repr
      ensures Ok()
      ensures ret in {NO_ERROR, ERR_GENERIC, ERR_INVALID_ARGS, ERR_OUT_OF_RANGE}
      ensures ret == ERR_OUT_OF_RANGE <==> !IsValidVaddr(vaddr)
      ensures ret == NO_ERROR && count > 0 ==> Mapped(old(tables), tables, RequestOf(vaddr, paddr, count, flags))
      ensures ret == NO_ERROR && count > 0 ==>
                Reshaped(old(tables), tables, vaddr - vaddrBase, vaddr - vaddrBase + SizeOf(count), true)
      ensures ret in {ERR_OUT_OF_RANGE, ERR_INVALID_ARGS} || count == 0 ==> tables == old(tables)
      ensures ret != NO_ERROR || count == 0 ==> TranslationsKept(old(tables), tables)
      ensures refusals >= old(refusals)
      ensures IsValidVaddr(vaddr) && ret != ERR_INVALID_ARGS && count > 0 ==>
                (ret == NO_ERROR <==>
                 && !Blocked(old(tables), RequestOf(vaddr, paddr, count, flags), g.topLevel)
                 && AllGranted(grants, old(allocs), old(Free()),
                               old(allocs) + TablesNeeded(old(tables), RequestOf(vaddr, paddr, count, flags))))
      ensures IsValidVaddr(vaddr) && ret !in {NO_ERROR, ERR_INVALID_ARGS} ==>
                Tally(grants, old(allocs), old(Free()), allocs, Free(),
                      TablesNeeded(old(tables), RequestOf(vaddr, paddr, count, flags)), false, refusals != old(refusals))
      ensures ret == ERR_INVALID_ARGS <==>
                && IsValidVaddr(vaddr)
                && (|| !IsPageAligned(vaddr) || !IsPageAligned(paddr)
                    || (count > 0 && !(&& vaddr - vaddrBase + SizeOf(count) <= Pow2(topSizeShift)
                                       && PageAligned(g, vaddr - vaddrBase, paddr, SizeOf(count)))))
    {
      hide Mapped, Blocked, TlbCurrent, PageAligned, SizeOf, RelAddr, IsPageAligned, Tally, Missing, AllGranted, Free, Reshaped, PageStopped;
      if !IsValidVaddr(vaddr) {
        return ERR_OUT_OF_RANGE;
      }
      if !IsPageAligned(vaddr) || !IsPageAligned(paddr) {
        return ERR_INVALID_ARGS;
      }
      if count == 0 {
        return NO_ERROR;
      }
      RelOfValid(vaddr);
      AttrsLeaveRoom(flags);
      ret := Map(vaddr, paddr, SizeOf(count), AttrBits(FlagsToAttr(flags)));
    }

    /** arch_mmu_unmap */
    method ArchUnmap(vaddr: nat, count: nat) returns (ret: int)
      requires Ok() && vaddr < WORD && SizeOf(count) < WORD
      modifies this`pool, this`tables, this`tlb, repr
      ensures Ok()
      ensures ret == ERR_OUT_OF_RANGE <==> !IsValidVaddr(vaddr)
      ensures ret in {NO_ERROR, ERR_INVALID_ARGS, ERR_OUT_OF_RANGE}
      ensures ret == ERR_INVALID_ARGS <==>
                && IsValidVaddr(vaddr)
                && (!IsPageAligned(vaddr) || vaddr - vaddrBase + SizeOf(count) > Pow2(topSizeShift))
      ensures ret == NO_ERROR ==>
                Swept(old(tables), tables, g.topLevel, vaddr - vaddrBase, vaddr - vaddrBase + SizeOf(count))
      ensures ret == NO_ERROR ==>
                Unmapped(old(tables), tables, vaddr - vaddrBase, vaddr - vaddrBase + SizeOf(count))
      ensures ret != NO_ERROR ==> tables == old(tables)
    {
      hide Unmapped, TlbCurrent, SizeOf, RelAddr, IsPageAligned, Swept;
      if !IsValidVaddr(vaddr) {
        return ERR_OUT_OF_RANGE;
      }
      if !IsPageAligned(vaddr) {
        return ERR_INVALID_ARGS;
      }
      RelOfValid(vaddr);
      ret := Unmap(vaddr, SizeOf(count));
    }

    /** arch_mmu_query; flags `Unknown` stand for the panic on a memory type that no mapping gets. */
    method ArchQuery(vaddr: nat) returns (ret: int, paddr: nat, flags: Flags)
      requires Ok() && vaddr < WORD
      ensures ret == ERR_OUT_OF_RANGE <==> !IsValidVaddr(vaddr)
      ensures IsValidVaddr(vaddr) ==>
                ret == if PageTable.Query(tables, vaddr - vaddrBase).Hit? then NO_ERROR else ERR_NOT_FOUND
      ensures ret == NO_ERROR ==> IsValidVaddr(vaddr)
      ensures ret == NO_ERROR ==> paddr == PageTable.Query(tables, vaddr - vaddrBase).pa
      ensures ret == NO_ERROR ==> flags == AttrToFlags(PageTable.Query(tables, vaddr - vaddrBase).attrs.bits)
    {
      if !IsValidVaddr(vaddr) {
        return ERR_OUT_OF_RANGE, 0, Unknown;
      }
      RelOfValid(vaddr);
      var pte;
      ret, paddr, pte := Query(vaddr);
      FlagsOfWord(pte);
      flags := AttrToFlags(pte.bits);
    }
  }

  /** The first page and the first block of the top level lie in the address space. */
  lemma FirstBlock(m: PageTables, attrs: AttrBits)
    requires m.Frames() && IndexShift(m.g, m.g.topLevel) <= BLOCK_MAX_SHIFT
    ensures m.g.Valid() && m.vaddrBase < WORD && m.RelAddr(m.vaddrBase) == 0
    ensures BlockSize(m.g, 0) <= BlockSize(m.g, m.g.topLevel) <= Pow2(m.topSizeShift) <= PHYS_LIMIT < WORD
    ensures PageAligned(m.g, 0, 0, BlockSize(m.g, 0)) && PageAligned(m.g, 0, 0, BlockSize(m.g, m.g.topLevel))
    ensures Quot(0, BlockSize(m.g, m.g.topLevel)) == 0
    ensures forall n: nat :: m.RequestAt(m.vaddrBase, 0, n, attrs) == Request(0, n, 0, attrs)
  {
    TimesMonotone(1, m.g.topEntries, BlockSize(m.g, m.g.topLevel));
    assert Times(1, BlockSize(m.g, m.g.topLevel)) == BlockSize(m.g, m.g.topLevel) + Times(0, BlockSize(m.g, m.g.topLevel));
    Pow2Monotone(m.g.pageShift, IndexShift(m.g, m.g.topLevel));
    Pow2Monotone(m.topSizeShift, 48);
    Pow2Of48();
    PageDivides(m.g, m.g.topLevel, 0);
    PageDivides(m.g, 0, 0);
  }

  lemma OkTables(m: PageTables)
    requires m.Ok()
    ensures m.tables.g == m.g && m.g.Valid() && m.Frames()
  {
  }

  lemma StillFree(s: Tables, s': Tables)
    requires s.g.Valid() && s'.g == s.g && TranslationsKept(s, s')
    requires forall va: nat :: PageTable.Query(s, va).Miss?
    ensures forall va: nat :: PageTable.Query(s', va).Miss?
  {
  }

  /**
   * Every address is free and one page is to be mapped; the second allocation is refused.
   * The table of the first stays, and its whole block, still free, can no longer be mapped.
   */
  method FreeButNotMappable(m: PageTables, attrs: AttrBits) returns (page: int, block: int, ghost left: Tables)
    requires m.Ok() && m.tables == AddressSpace.NoTables(m.g, m.root) && AttrsFit(attrs)
    requires m.g.topLevel > 1 && IndexShift(m.g, m.g.topLevel) <= BLOCK_MAX_SHIFT
    requires m.Granted() && !m.grants(m.allocs + 1)
    modifies m`pool, m`allocs, m`refusals, m`tables, m`tlb, m.repr
    ensures m.Ok() && page == block == ERR_GENERIC
    ensures TableLeft(AddressSpace.NoTables(m.g, m.root), left, m.root, 0)
    ensures forall va: nat :: PageTable.Query(left, va).Miss? && PageTable.Query(m.tables, va).Miss?
  {
    hide *;
    OkTables(m);
    FirstBlock(m, attrs);
    page := m.Map(m.vaddrBase, 0, BlockSize(m.g, 0), attrs);
    AddressSpace.PageLeavesTable(m.g, m.root, m.tables, attrs, page == NO_ERROR);
    left := m.tables;
    block := m.Map(m.vaddrBase, 0, BlockSize(m.g, m.g.topLevel), attrs);
    OkTables(m);
    StillFree(left, m.tables);
  }

  /** The same from initialization on: some frame is free, and the second allocation of all is refused. */
  method FreshButNotMappable(g: Geometry, ram: map<nat, array<PteWord>>, root: nat, vaddrBase: nat, topSizeShift: nat,
                             aspaceBase: nat, aspaceSize: nat, pageSize: nat, grants: nat -> bool,
                             ghost addressOf: map<array<PteWord>, nat>, attrs: AttrBits)
    returns (m: PageTables, page: int, block: int)
    requires g.Valid() && root in ram && pageSize > 0
    requires topSizeShift <= 48 && Pow2(topSizeShift) == Times(g.topEntries, BlockSize(g, g.topLevel))
    requires vaddrBase + Pow2(topSizeShift) <= WORD
    requires vaddrBase <= aspaceBase && 0 < aspaceSize && aspaceBase + aspaceSize <= vaddrBase + Pow2(topSizeShift)
    requires forall p :: p in ram ==>
               && ram[p] in addressOf && addressOf[ram[p]] == p
               && ram[p].Length == (if p == root then g.topEntries else Fanout(g)) && AddrFits(p)
    requires g.topLevel > 1 && IndexShift(g, g.topLevel) <= BLOCK_MAX_SHIFT && AttrsFit(attrs)
    requires ram.Keys != {root} && grants(0) && !grants(1)
    modifies set p | p in ram :: ram[p]
    ensures fresh(m) && m.Ok() && m.g == g && m.root == root && page == block == ERR_GENERIC
    ensures forall va: nat :: PageTable.Query(m.tables, va).Miss?
  {
    m := new PageTables(g, ram, root, vaddrBase, topSizeShift, aspaceBase, aspaceSize, pageSize, grants, addressOf);
    ghost var left;
    page, block, left := FreeButNotMappable(m, attrs);
  }
}

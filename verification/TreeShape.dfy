/**
 * Which tables there are: what map and unmap do to tables elsewhere, that unmap leaves no
 * clear table behind, and that a tree without clear tables is determined by its translations.
 */
module TreeShape {
  import opened Arith
  import opened PageTable
  import opened Spans
  import opened Mapping
  import AddressSpace

  /** Table `q` covers an address of lo..hi. */
  ghost predicate Meets(s: Tables, q: nat, lo: nat, hi: nat)
    requires s.g.Valid() && q in s.place && q in s.mem
  {
    lo < hi && s.place[q].base < hi && lo < s.place[q].base + Times(|s.mem[q]|, BlockSize(s.g, s.place[q].level))
  }

  ghost predicate SameTable(s: Tables, s': Tables, q: nat)
    requires q in s.mem && q in s.place
  {
    q in s'.mem && q in s'.place && s'.mem[q] == s.mem[q] && s'.place[q] == s.place[q]
  }

  /** Tables that cover no address of lo..hi are the same in both. */
  ghost predicate Outside(s: Tables, s': Tables, lo: nat, hi: nat) {
    && Valid(s) && Valid(s') && s'.g == s.g && s'.root == s.root
    && (forall q :: q in s.mem && !Meets(s, q, lo, hi) ==> SameTable(s, s', q))
    && (forall q :: q in s'.mem && !Meets(s', q, lo, hi) ==> SameTable(s', s, q))
  }

  /** Every table of `s` is in `s'`, in the same place. */
  ghost predicate PlacesKept(s: Tables, s': Tables) {
    && Valid(s) && Valid(s') && s'.g == s.g && s'.root == s.root
    && forall q :: q in s.mem ==> q in s'.mem && s'.place[q] == s.place[q]
  }

  /** Below level `level` no table that covers an address of lo..hi is all clear. */
  ghost predicate Pruned(s: Tables, level: nat, lo: nat, hi: nat) {
    Valid(s) && forall q :: q in s.mem && s.place[q].level < level && Meets(s, q, lo, hi) ==> !AllClear(s.mem[q])
  }

  /** What unmapping lo..hi below level `level` does to the tables. */
  ghost predicate Swept(s: Tables, s': Tables, level: nat, lo: nat, hi: nat) {
    Outside(s, s', lo, hi) && PlacesKept(s', s) && Pruned(s', level, lo, hi)
  }

  /** What mapping lo..hi does to the tables: none elsewhere changes, and if it succeeds none is lost. */
  ghost predicate Reshaped(s: Tables, s': Tables, lo: nat, hi: nat, ok: bool) {
    Outside(s, s', lo, hi) && (ok ==> PlacesKept(s, s'))
  }

  // ---- tables and the addresses they cover ----

  /** No two tables of one level cover the same address. */
  lemma {:induction false} SameLevelSame(s: Tables, p: nat, q: nat, va: nat)
    requires Valid(s) && p in s.mem && q in s.mem && s.place[p].level == s.place[q].level
    requires InTable(s, p, va) && InTable(s, q, va)
    ensures p == q
    decreases s.g.topLevel - s.place[p].level
  {
    assert TableOk(s, p) && TableOk(s, q);
    if p != s.root && q != s.root {
      LookupFromParent(s, p, va);
      LookupFromParent(s, q, va);
      SameLevelSame(s, s.place[p].parent, s.place[q].parent, va);
      var u := s.place[p].parent;
      ChildCoversSlot(s, u, s.place[p].slot, va);
      ChildCoversSlot(s, u, s.place[q].slot, va);
      SlotInTable(s, u, s.place[p].slot, va);
      SlotInTable(s, u, s.place[q].slot, va);
    }
  }

  /** A table below `p` at an address hangs on `p`'s slot for that address. */
  lemma {:induction false} TableBehindSlot(s: Tables, p: nat, i: nat, q: nat, va: nat)
    requires Valid(s) && p in s.mem && q in s.mem && s.place[q].level < s.place[p].level && i < |s.mem[p]|
    requires InSlot(s, p, i, va) && InTable(s, q, va)
    ensures IsTable(s.place[p].level, s.mem[p][i])
    decreases s.place[p].level - s.place[q].level
  {
    assert TableOk(s, q) && TableOk(s, p);
    LookupFromParent(s, q, va);
    var u := s.place[q].parent;
    if s.place[u].level < s.place[p].level {
      TableBehindSlot(s, p, i, u, va);
    } else {
      SlotInTable(s, p, i, va);
      SameLevelSame(s, u, p, va);
      ChildCoversSlot(s, u, s.place[q].slot, va);
      SlotInTable(s, u, s.place[q].slot, va);
    }
  }

  /** An address that a table and a range have in common. */
  lemma MeetsAt(s: Tables, q: nat, lo: nat, hi: nat) returns (va: nat)
    requires Valid(s) && q in s.mem && Meets(s, q, lo, hi)
    ensures lo <= va < hi && InTable(s, q, va)
  {
    va := if lo < s.place[q].base then s.place[q].base else lo;
    assert TableOk(s, q);
    TableNotEmpty(s, q);
  }

  lemma TableNotEmpty(s: Tables, q: nat)
    requires Valid(s) && q in s.mem
    ensures Times(|s.mem[q]|, BlockSize(s.g, s.place[q].level)) > 0
  {
    assert TableOk(s, q);
    TimesMonotone(1, |s.mem[q]|, BlockSize(s.g, s.place[q].level));
    assert Times(1, BlockSize(s.g, s.place[q].level)) ==
           BlockSize(s.g, s.place[q].level) + Times(0, BlockSize(s.g, s.place[q].level));
  }

  lemma InTableMeets(s: Tables, q: nat, lo: nat, hi: nat, va: nat)
    requires Valid(s) && q in s.mem && lo <= va < hi && InTable(s, q, va)
    ensures Meets(s, q, lo, hi)
  {
  }

  // ---- single changes ----

  lemma SameShape(s: Tables, lo: nat, hi: nat)
    requires Valid(s)
    ensures Reshaped(s, s, lo, hi, true)
  {
  }

  lemma WroteEntry(s: Tables, p: nat, i: nat, e: Pte, lo: nat, hi: nat)
    requires Valid(s) && p in s.mem && i < |s.mem[p]| && Valid(WithEntry(s, p, i, e))
    requires lo < hi && InSlot(s, p, i, lo)
    ensures Reshaped(s, WithEntry(s, p, i, e), lo, hi, true) && PlacesKept(WithEntry(s, p, i, e), s)
  {
    SlotInTable(s, p, i, lo);
    InTableMeets(s, p, lo, hi, lo);
  }

  lemma LinkedOne(s: Tables, p: nat, i: nat, q: nat, lo: nat, hi: nat)
    requires Valid(s) && p in s.mem && i < |s.mem[p]| && s.place[p].level > 0 && q !in s.mem && s.mem[p][i] == CLEAR
    requires lo < hi && InSlot(s, p, i, lo)
    ensures Reshaped(s, Linked(s, p, i, q), lo, hi, true)
  {
    var s' := Linked(s, p, i, q);
    LinkKeepsTree(s, p, i, q);
    SlotInTable(s, p, i, lo);
    InTableMeets(s, p, lo, hi, lo);
    ChildCoversSlot(s', p, i, lo);
    InTableMeets(s', q, lo, hi, lo);
  }

  lemma UnlinkedOne(s: Tables, p: nat, i: nat, lo: nat, hi: nat)
    requires Valid(s) && p in s.mem && i < |s.mem[p]| && IsTable(s.place[p].level, s.mem[p][i])
    requires s.mem[p][i].addr in s.mem && AllClear(s.mem[s.mem[p][i].addr])
    requires lo < hi && InSlot(s, p, i, lo)
    ensures Outside(s, Unlinked(s, p, i), lo, hi) && PlacesKept(Unlinked(s, p, i), s)
  {
    UnlinkKeepsTree(s, p, i);
    SlotInTable(s, p, i, lo);
    InTableMeets(s, p, lo, hi, lo);
    ChildCoversSlot(s, p, i, lo);
    InTableMeets(s, s.mem[p][i].addr, lo, hi, lo);
  }

  // ---- one change after another ----

  lemma OutsideThen(s0: Tables, s1: Tables, s2: Tables, lo: nat, mid: nat, cur: nat, hi: nat)
    requires Outside(s0, s1, lo, mid) && Outside(s1, s2, cur, hi) && lo <= mid <= hi && lo <= cur
    ensures Outside(s0, s2, lo, hi)
  {
    forall q | q in s0.mem && !Meets(s0, q, lo, hi)
      ensures SameTable(s0, s2, q)
    {
      assert SameTable(s0, s1, q) && SameTable(s1, s2, q);
    }
    forall q | q in s2.mem && !Meets(s2, q, lo, hi)
      ensures SameTable(s2, s0, q)
    {
      assert SameTable(s2, s1, q) && SameTable(s1, s0, q);
    }
  }

  lemma OutsideWider(s: Tables, s': Tables, lo: nat, mid: nat, hi: nat)
    requires Outside(s, s', lo, mid) && mid <= hi
    ensures Outside(s, s', lo, hi)
  {
  }

  lemma PlacesThen(s0: Tables, s1: Tables, s2: Tables)
    requires PlacesKept(s0, s1) && PlacesKept(s1, s2)
    ensures PlacesKept(s0, s2)
  {
  }

  lemma ReshapedThen(s0: Tables, s1: Tables, s2: Tables, lo: nat, mid: nat, cur: nat, hi: nat, ok: bool)
    requires Reshaped(s0, s1, lo, mid, true) && Reshaped(s1, s2, cur, hi, ok) && lo <= mid <= hi && lo <= cur
    ensures Reshaped(s0, s2, lo, hi, ok)
  {
    OutsideThen(s0, s1, s2, lo, mid, cur, hi);
    if ok {
      PlacesThen(s0, s1, s2);
    }
  }

  // ---- the turns of the map loop ----

  lemma SameShapeFailed(s: Tables, lo: nat, hi: nat)
    requires Valid(s)
    ensures Reshaped(s, s, lo, hi, false)
  {
  }

  lemma ReshapedLeaf(s: Tables, p: nat, i: nat, e: Pte, lo: nat, hi: nat)
    requires Valid(s) && p in s.mem && i < |s.mem[p]| && CanWrite(s, p, i, e) && lo < hi && InSlot(s, p, i, lo)
    ensures Reshaped(s, WithEntry(s, p, i, e), lo, hi, true)
  {
    WriteKeepsTree(s, p, i, e);
    WroteEntry(s, p, i, e, lo, hi);
  }

  lemma NoDescentShape(s0: Tables, s: Tables, r: Request, table: nat, i: nat, mid: nat, rem: nat, pa: nat, chunk: nat)
    requires BelowReady(s0, s, r, table, i, mid, rem, pa, chunk)
    ensures Reshaped(s, s, mid, mid + chunk, false)
  {
  }

  lemma BelowFacts(s0: Tables, s: Tables, r: Request, table: nat, i: nat, mid: nat, rem: nat, pa: nat, chunk: nat)
    requires BelowReady(s0, s, r, table, i, mid, rem, pa, chunk)
    ensures Valid(s) && table in s.mem && i < |s.mem[table]| && s.place[table].level > 0
    ensures chunk > 0 && InSlot(s, table, i, mid)
  {
  }

  lemma BelowShape(s0: Tables, s: Tables, g: Tables, s': Tables, r: Request, table: nat, i: nat, next: nat,
                   mid: nat, rem: nat, pa: nat, chunk: nat, ok: bool)
    requires BelowReady(s0, s, r, table, i, mid, rem, pa, chunk) && Descends(s, g, table, i, next)
    requires s.mem[table][i] == CLEAR ==> next !in s.mem && g == Linked(s, table, i, next)
    requires Reshaped(g, s', mid, mid + chunk, ok)
    ensures Reshaped(s, s', mid, mid + chunk, ok)
  {
    hide *;
    BelowFacts(s0, s, r, table, i, mid, rem, pa, chunk);
    DescendsOr(s, g, table, i, next);
    if s.mem[table][i] == CLEAR {
      LinkedOne(s, table, i, next, mid, mid + chunk);
      ReshapedThen(s, g, s', mid, mid + chunk, mid, mid + chunk, ok);
    }
  }

  lemma DescendsOr(s: Tables, g: Tables, table: nat, i: nat, next: nat)
    requires Descends(s, g, table, i, next)
    ensures s.mem[table][i] != CLEAR ==> g == s
  {
  }

  /** One more turn; a turn that fails leaves the whole request reshaped at most. */
  lemma TurnShape(s0: Tables, s: Tables, s': Tables, r: Request, table: nat, i: nat, mid: nat, rem: nat, pa: nat,
                  chunk: nat, ok: bool)
    requires ChunkReady(s0, s, r, table, i, mid, rem, pa, chunk) && Reshaped(s0, s, r.lo, mid, true)
    requires Reshaped(s, s', mid, mid + chunk, ok)
    ensures if ok then Reshaped(s0, s', r.lo, mid + chunk, true)
            else r.lo <= mid <= r.hi && Reshaped(s0, s', r.lo, r.hi, false)
  {
    hide *;
    ChunkRange(s0, s, r, table, i, mid, rem, pa, chunk);
    ReshapedThen(s0, s, s', r.lo, mid, mid, mid + chunk, ok);
    if !ok {
      ReshapedWider(s0, s', r.lo, mid + chunk, r.hi);
    }
  }

  lemma ChunkRange(s0: Tables, s: Tables, r: Request, table: nat, i: nat, mid: nat, rem: nat, pa: nat, chunk: nat)
    requires ChunkReady(s0, s, r, table, i, mid, rem, pa, chunk)
    ensures r.lo <= mid && mid + chunk <= r.hi
  {
  }

  lemma ReshapedWider(s: Tables, s': Tables, lo: nat, mid: nat, hi: nat)
    requires Reshaped(s, s', lo, mid, false) && mid <= hi
    ensures Reshaped(s, s', lo, hi, false)
  {
    OutsideWider(s, s', lo, mid, hi);
  }

  /** A turn failed, and what was mapped before it is swept away. */
  lemma FailedShape(s0: Tables, s: Tables, s': Tables, level: nat, lo: nat, mid: nat, hi: nat)
    requires Reshaped(s0, s, lo, hi, false) && Swept(s, s', level, lo, mid) && lo <= mid <= hi
    ensures Reshaped(s0, s', lo, hi, false)
  {
    OutsideWider(s, s', lo, mid, hi);
    OutsideThen(s0, s, s', lo, hi, lo, hi);
  }

  /** Tables pruned before stay pruned, unless the next range prunes them itself. */
  lemma SweptThen(s0: Tables, s1: Tables, s2: Tables, level: nat, lo: nat, mid: nat, hi: nat)
    requires Swept(s0, s1, level, lo, mid) && Swept(s1, s2, level, mid, hi) && lo <= mid <= hi
    ensures Swept(s0, s2, level, lo, hi)
  {
    hide TableOk;
    OutsideThen(s0, s1, s2, lo, mid, mid, hi);
    PlacesThen(s2, s1, s0);
    forall q | q in s2.mem && s2.place[q].level < level && Meets(s2, q, lo, hi)
      ensures !AllClear(s2.mem[q])
    {
      TableNotEmpty(s2, q);
      if !Meets(s2, q, mid, hi) {
        assert SameTable(s2, s1, q);
      }
    }
  }

  // ---- the turns of the unmap loop ----

  lemma SweptNothing(s: Tables, level: nat, lo: nat)
    requires Valid(s)
    ensures Swept(s, s, level, lo, lo)
  {
  }

  /** Behind a slot that holds no table there is nothing to prune. */
  lemma NothingBehind(s: Tables, p: nat, i: nat, lo: nat, hi: nat)
    requires Valid(s) && p in s.mem && i < |s.mem[p]| && !IsTable(s.place[p].level, s.mem[p][i])
    requires lo < hi && InSlot(s, p, i, lo) && InSlot(s, p, i, hi - 1)
    ensures Pruned(s, s.place[p].level, lo, hi)
  {
    if !Pruned(s, s.place[p].level, lo, hi) {
      var q :| q in s.mem && s.place[q].level < s.place[p].level && Meets(s, q, lo, hi);
      var va := MeetsAt(s, q, lo, hi);
      TableBehindSlot(s, p, i, q, va);
      assert false;
    }
  }

  lemma SweptLeaf(s: Tables, p: nat, i: nat, lo: nat, hi: nat)
    requires Valid(s) && p in s.mem && i < |s.mem[p]| && IsLeaf(s.place[p].level, s.mem[p][i])
    requires lo < hi && InSlot(s, p, i, lo) && InSlot(s, p, i, hi - 1)
    ensures Swept(s, WithEntry(s, p, i, CLEAR), s.place[p].level, lo, hi)
  {
    WriteKeepsTree(s, p, i, CLEAR);
    WroteEntry(s, p, i, CLEAR, lo, hi);
    NothingBehind(WithEntry(s, p, i, CLEAR), p, i, lo, hi);
  }

  lemma SweptClear(s: Tables, p: nat, i: nat, lo: nat, hi: nat)
    requires Valid(s) && p in s.mem && i < |s.mem[p]| && s.mem[p][i] == CLEAR
    requires lo < hi && InSlot(s, p, i, lo) && InSlot(s, p, i, hi - 1)
    ensures Swept(s, s, s.place[p].level, lo, hi)
  {
    NothingBehind(s, p, i, lo, hi);
  }

  /** The table behind the slot is swept, and then reclaimed if it became clear. */
  lemma SweptBelow(s: Tables, s1: Tables, s2: Tables, p: nat, i: nat, lo: nat, hi: nat)
    requires Valid(s) && p in s.mem && i < |s.mem[p]| && IsTable(s.place[p].level, s.mem[p][i])
    requires lo < hi && InSlot(s, p, i, lo) && InSlot(s, p, i, hi - 1)
    requires Swept(s, s1, s.place[p].level - 1, lo, hi) && p in s1.mem && s1.mem[p] == s.mem[p]
    requires ReclaimedIfClear(s1, s2, p, i)
    ensures Swept(s, s2, s.place[p].level, lo, hi)
  {
    hide TableOk;
    var level, c := s.place[p].level, s.mem[p][i].addr;
    ChildCoversSlot(s1, p, i, lo);
    if AllClear(s1.mem[c]) {
      UnlinkedOne(s1, p, i, lo, hi);
      OutsideThen(s, s1, s2, lo, hi, lo, hi);
      PlacesThen(s2, s1, s);
    }
    forall q | q in s2.mem && s2.place[q].level < level && Meets(s2, q, lo, hi)
      ensures !AllClear(s2.mem[q])
    {
      assert q in s1.mem && s1.place[q] == s2.place[q];
      assert q != p && s2.mem[q] == s1.mem[q];
      if s1.place[q].level == level - 1 {
        var va := MeetsAt(s1, q, lo, hi);
        ChildCoversSlot(s1, p, i, va);
        SameLevelSame(s1, q, c, va);
      }
    }
  }

  // ---- trees without clear tables ----

  ghost predicate NoClearTables(s: Tables) {
    forall q :: q in s.mem && q != s.root ==> !AllClear(s.mem[q])
  }

  /** Unmap at the root leaves no clear table, if there was none elsewhere. */
  lemma UnmapLeavesNoClearTable(s: Tables, s': Tables, lo: nat, hi: nat)
    requires NoClearTables(s) && Swept(s, s', s.g.topLevel, lo, hi)
    ensures NoClearTables(s')
  {
    forall q | q in s'.mem && q != s'.root
      ensures !AllClear(s'.mem[q])
    {
      assert TableOk(s', q);
      if !Meets(s', q, lo, hi) {
        assert SameTable(s', s, q);
      }
    }
  }

  /** So does a map that succeeds: the tables it adds hold what was mapped. */
  lemma MapLeavesNoClearTable(s: Tables, s': Tables, r: Request)
    requires NoClearTables(s) && Reshaped(s, s', r.lo, r.hi, true) && Mapped(s, s', r)
    ensures NoClearTables(s')
  {
    forall q | q in s'.mem && q != s'.root
      ensures !AllClear(s'.mem[q])
    {
      if Meets(s', q, r.lo, r.hi) {
        var va := MeetsAt(s', q, r.lo, r.hi);
        var i := SlotOf(s', q, va);
        QueryInSlot(s', q, i, va);
      } else {
        assert SameTable(s', s, q);
      }
    }
  }

  /** Below a table that is not clear there is a leaf. */
  lemma {:induction false} HasLeaf(s: Tables, q: nat) returns (va: nat)
    requires Valid(s) && NoClearTables(s) && q in s.mem && !AllClear(s.mem[q])
    ensures InTable(s, q, va) && Query(s, va).Hit? && Query(s, va).level <= s.place[q].level
    decreases s.place[q].level
  {
    var i :| 0 <= i < |s.mem[q]| && s.mem[q][i] != CLEAR;
    assert TableOk(s, q) && SlotOk(s, q, i);
    if IsTable(s.place[q].level, s.mem[q][i]) {
      ChildCoversSlot(s, q, i, 0);
      va := HasLeaf(s, s.mem[q][i].addr);
      ChildCoversSlot(s, q, i, va);
      SlotInTable(s, q, i, va);
    } else {
      va := SlotBase(s, q, i);
      QueryInSlot(s, q, i, va);
      SlotInTable(s, q, i, va);
    }
  }

  /** The walk to a leaf passes a table of every level above it. */
  lemma {:induction false} TableOnWalk(s: Tables, p: nat, level: nat, va: nat) returns (q: nat)
    requires Valid(s) && p in s.mem && InTable(s, p, va) && Query(s, va).Hit?
    requires Query(s, va).level <= level <= s.place[p].level
    ensures q in s.mem && s.place[q].level == level && InTable(s, q, va)
    decreases s.place[p].level
  {
    q := p;
    if level < s.place[p].level {
      var i := SlotOf(s, p, va);
      QueryInSlot(s, p, i, va);
      assert TableOk(s, p) && SlotOk(s, p, i);
      ChildCoversSlot(s, p, i, va);
      q := TableOnWalk(s, s.mem[p][i].addr, level, va);
    }
  }

  /** Two trees without clear tables that translate alike, both part of one tree. */
  ghost predicate Alike(s: Tables, t: Tables, u: Tables) {
    && PlacesKept(s, u) && PlacesKept(t, u) && NoClearTables(s) && NoClearTables(t)
    && forall va: nat :: SameTranslation(Query(t, va), Query(s, va))
  }

  lemma SizeKept(s: Tables, u: Tables, q: nat)
    requires PlacesKept(s, u) && q in s.mem
    ensures |u.mem[q]| == |s.mem[q]|
    ensures forall va: nat :: InTable(s, q, va) <==> InTable(u, q, va)
  {
    assert TableOk(s, q) && TableOk(u, q);
  }

  lemma TableInBoth(s: Tables, t: Tables, u: Tables, q: nat)
    requires Alike(s, t, u) && q in s.mem
    ensures q in t.mem && t.place[q] == s.place[q]
  {
    if q != s.root {
      assert TableOk(s, q);
      var va := HasLeaf(s, q);
      HitInRoot(t, va);
      RootCovers(t);
      var q' := TableOnWalk(t, t.root, s.place[q].level, va);
      SizeKept(s, u, q);
      SizeKept(t, u, q');
      SameLevelSame(u, q, q', va);
    }
  }

  lemma EntryInBoth(s: Tables, t: Tables, u: Tables, q: nat, i: nat)
    requires Alike(s, t, u) && q in s.mem && q in t.mem && i < |s.mem[q]| && i < |t.mem[q]| && s.mem[q][i] != CLEAR
    ensures t.mem[q][i] == s.mem[q][i]
  {
    TableInBoth(s, t, u, q);
    var e, e', level := s.mem[q][i], t.mem[q][i], s.place[q].level;
    assert TableOk(s, q) && SlotOk(s, q, i);
    assert TableOk(t, q) && SlotOk(t, q, i);
    if IsTable(level, e) {
      ChildCoversSlot(s, q, i, 0);
      TableInBoth(s, t, u, e.addr);
      assert TableOk(t, e.addr);
    } else {
      var va := SlotBase(s, q, i);
      QueryInSlot(s, q, i, va);
      QueryInSlot(t, q, i, va);
      if IsTable(level, e') {
        ChildCoversSlot(t, q, i, va);
        var p, j := WalkEnd(t, e'.addr, va);
        assert false;
      }
    }
  }

  lemma AlikeSymmetric(s: Tables, t: Tables, u: Tables)
    requires Alike(s, t, u)
    ensures Alike(t, s, u)
  {
  }

  /** Translations determine the tables. */
  lemma SameTranslationsSameTables(s: Tables, t: Tables, u: Tables)
    requires Alike(s, t, u)
    ensures s == t
  {
    AlikeSymmetric(s, t, u);
    forall q
      ensures q in s.mem <==> q in t.mem
      ensures q in s.mem ==> t.place[q] == s.place[q] && t.mem[q] == s.mem[q]
    {
      if q in s.mem {
        TableInBoth(s, t, u, q);
      }
      if q in t.mem {
        TableInBoth(t, s, u, q);
      }
      if q in s.mem {
        SizeKept(s, u, q);
        SizeKept(t, u, q);
        forall i | 0 <= i < |s.mem[q]|
          ensures t.mem[q][i] == s.mem[q][i]
        {
          if s.mem[q][i] != CLEAR {
            EntryInBoth(s, t, u, q, i);
          } else if t.mem[q][i] != CLEAR {
            EntryInBoth(t, s, u, q, i);
          }
        }
      }
    }
    assert s.mem == t.mem && s.place == t.place;
  }

  /** Unmapping exactly what was mapped gives back the tables, if no clear table was there at the start. */
  lemma SameTablesAgain(s0: Tables, s1: Tables, s2: Tables, r: Request)
    requires Valid(s0) && NoClearTables(s0)
    requires Reshaped(s0, s1, r.lo, r.hi, true) && Mapped(s0, s1, r)
    requires Swept(s1, s2, s1.g.topLevel, r.lo, r.hi) && Unmapped(s1, s2, r.lo, r.hi)
    ensures s2 == s0
  {
    MapLeavesNoClearTable(s0, s1, r);
    UnmapLeavesNoClearTable(s1, s2, r.lo, r.hi);
    AddressSpace.MapThenUnmap(s0, s1, s2, r);
    SameTranslationsSameTables(s0, s2, s1);
  }
}

/**
 * How many tables a mapping request needs that are not there yet, and how the allocator's
 * answers decide whether it gets them.
 */
module TableCount {
  import opened Arith
  import opened PageTable
  import opened Spans
  import opened Mapping

  // ---- the answers of the allocator ----

  /** With `n0` free frames, each allocation from number `a0` up to `a` is granted and finds one. */
  ghost predicate AllGranted(grants: nat -> bool, a0: nat, n0: nat, a: nat) {
    forall k: nat :: a0 <= k < a ==> grants(k) && k - a0 < n0
  }

  /**
   * Between allocation numbers `a0` and `a` at most `need` tables were asked for; exactly these if all
   * went well; one was refused exactly if the allocator did not grant all of them.
   */
  ghost predicate Tally(grants: nat -> bool, a0: nat, n0: nat, a: nat, n: nat, need: nat, ok: bool, refused: bool) {
    && a0 <= a <= a0 + need
    && (ok ==> a == a0 + need && n + need == n0 && !refused)
    && (refused <==> !AllGranted(grants, a0, n0, a))
  }

  lemma NothingAsked(grants: nat -> bool, a: nat, n: nat, need: nat, ok: bool)
    requires ok ==> need == 0
    ensures Tally(grants, a, n, a, n, need, ok, false)
  {
  }

  lemma OneAsked(grants: nat -> bool, a0: nat, n0: nat, n: nat, ok: bool)
    requires ok <==> n0 > 0 && grants(a0)
    requires ok ==> n + 1 == n0
    ensures Tally(grants, a0, n0, a0 + 1, n, 1, ok, !ok)
  {
    assert AllGranted(grants, a0, n0, a0 + 1) ==> grants(a0) && a0 - a0 < n0;
  }

  lemma TallyThen(grants: nat -> bool, a0: nat, n0: nat, a1: nat, n1: nat, need1: nat, a2: nat, n2: nat, need2: nat,
                  ok: bool, refused: bool)
    requires Tally(grants, a0, n0, a1, n1, need1, true, false) && Tally(grants, a1, n1, a2, n2, need2, ok, refused)
    ensures Tally(grants, a0, n0, a2, n2, need1 + need2, ok, refused)
  {
    if refused {
      var k: nat :| a1 <= k < a2 && !(grants(k) && k - a1 < n1);
      assert a0 <= k < a2 && !(grants(k) && k - a0 < n0);
    } else {
      assert AllGranted(grants, a0, n0, a1) && AllGranted(grants, a1, n1, a2);
      forall k: nat | a0 <= k < a2
        ensures grants(k) && k - a0 < n0
      {
        assert grants(k) && (k >= a1 ==> k - a1 < n1);
      }
    }
  }

  lemma TallyFailed(grants: nat -> bool, a0: nat, n0: nat, a: nat, n: nat, n': nat, need: nat, need': nat, refused: bool)
    requires Tally(grants, a0, n0, a, n, need, false, refused) && need <= need'
    ensures Tally(grants, a0, n0, a, n', need', false, refused)
  {
  }

  // ---- the tables that are missing ----

  /** At `va` the request needs a table of level `l`, and the walk ends above it. */
  ghost predicate NeedsTable(s: Tables, r: Request, level: nat, va: nat, l: nat)
    requires s.g.Valid()
  {
    l < level && LeafLevel(s.g, r, level, va) <= l < Query(s, va).level
  }

  /** The missing tables for the addresses lo..hi below level `level`: the level of each and the first address it covers. */
  ghost function Missing(s: Tables, r: Request, level: nat, lo: nat, hi: nat): set<(nat, nat)>
    requires s.g.Valid()
  {
    set va: nat, l: nat | lo <= va < hi && l < level && NeedsTable(s, r, level, va, l) :: (l, SpanBase(s.g, l + 1, va))
  }

  /** How many tables a request to the whole tree needs that are not there. */
  ghost function TablesNeeded(s: Tables, r: Request): nat
    requires s.g.Valid()
  {
    |Missing(s, r, s.g.topLevel, r.lo, r.hi)|
  }

  lemma MissingAgree(s: Tables, s': Tables, r: Request, level: nat, lo: nat, hi: nat)
    requires s.g.Valid() && s'.g == s.g
    requires forall va: nat :: lo <= va < hi ==> Query(s, va) == Query(s', va)
    ensures Missing(s, r, level, lo, hi) == Missing(s', r, level, lo, hi)
  {
    assert forall va: nat, l: nat | lo <= va < hi :: NeedsTable(s, r, level, va, l) == NeedsTable(s', r, level, va, l);
  }

  lemma AlignedBelowBase(g: Geometry, level: nat, mid: nat, va: nat)
    requires g.Valid() && Rem(mid, BlockSize(g, level)) == 0 && mid <= va
    ensures mid <= SpanBase(g, level, va)
  {
    RemOfAligned(mid, BlockSize(g, level), va - mid);
  }

  /** The blocks on the two sides of a slot boundary have no table in common. */
  lemma MissingSplit(s: Tables, r: Request, level: nat, lo: nat, mid: nat, hi: nat)
    requires s.g.Valid() && lo <= mid <= hi && (mid == lo || Rem(mid, BlockSize(s.g, level)) == 0)
    ensures Missing(s, r, level, lo, hi) == Missing(s, r, level, lo, mid) + Missing(s, r, level, mid, hi)
    ensures |Missing(s, r, level, lo, hi)| == |Missing(s, r, level, lo, mid)| + |Missing(s, r, level, mid, hi)|
  {
    var a, b := Missing(s, r, level, lo, mid), Missing(s, r, level, mid, hi);
    forall x | x in b
      ensures x !in a
    {
      if mid > lo {
        MissingAfter(s, r, level, mid, hi, x);
        if x in a {
          MissingBefore(s, r, level, lo, mid, x);
        }
      }
    }
    assert a !! b;
    MissingParts(s, r, level, lo, mid, hi);
  }

  lemma MissingParts(s: Tables, r: Request, level: nat, lo: nat, mid: nat, hi: nat)
    requires s.g.Valid() && lo <= mid <= hi
    ensures Missing(s, r, level, lo, hi) == Missing(s, r, level, lo, mid) + Missing(s, r, level, mid, hi)
  {
    hide NeedsTable, SpanBase;
  }

  /** A table missing after a slot boundary starts after it, and one missing before it starts before. */
  lemma MissingAfter(s: Tables, r: Request, level: nat, mid: nat, hi: nat, x: (nat, nat))
    requires s.g.Valid() && Rem(mid, BlockSize(s.g, level)) == 0 && x in Missing(s, r, level, mid, hi)
    ensures x.1 >= mid
  {
    hide NeedsTable, SpanBase, LeafLevel;
    var va: nat, l: nat :| mid <= va < hi && l < level && NeedsTable(s, r, level, va, l)
                           && x == (l, SpanBase(s.g, l + 1, va));
    AlignedBelowBase(s.g, level, mid, va);
    SpanNested(s.g, l + 1, level, va);
  }

  lemma MissingBefore(s: Tables, r: Request, level: nat, lo: nat, mid: nat, x: (nat, nat))
    requires s.g.Valid() && x in Missing(s, r, level, lo, mid)
    ensures x.1 < mid
  {
    hide NeedsTable, SpanBase, LeafLevel;
    var va: nat, l: nat :| lo <= va < mid && l < level && NeedsTable(s, r, level, va, l)
                           && x == (l, SpanBase(s.g, l + 1, va));
  }

  lemma MissingMonotone(s: Tables, r: Request, level: nat, lo: nat, mid: nat, hi: nat)
    requires s.g.Valid() && mid <= hi
    ensures |Missing(s, r, level, lo, mid)| <= |Missing(s, r, level, lo, hi)|
  {
    SubsetSize(Missing(s, r, level, lo, mid), Missing(s, r, level, lo, hi));
  }

  lemma SubsetSize(a: set<(nat, nat)>, b: set<(nat, nat)>)
    requires a <= b
    ensures |a| <= |b|
  {
    assert b == a + (b - a);
  }

  /** A leaf in its slot needs no table. */
  lemma MissingLeaf(s: Tables, r: Request, table: nat, i: nat, mid: nat, end: nat)
    requires ChunkOf(s, r, table, i, mid, end) && TakesLeaf(s, r, table, mid, end)
    ensures Missing(s, r, s.place[table].level, mid, end) == {}
  {
    var level := s.place[table].level;
    forall va: nat | mid <= va < end
      ensures LeafLevel(s.g, r, level, va) == level
    {
      ChunkLeafLevel(s, r, table, i, mid, end, va);
    }
  }

  /** A clear slot that the request goes below lacks its table. */
  lemma MissingClear(s: Tables, r: Request, table: nat, i: nat, mid: nat, end: nat)
    requires ChunkOf(s, r, table, i, mid, end) && !TakesLeaf(s, r, table, mid, end) && s.place[table].level > 0
    requires s.mem[table][i] == CLEAR
    ensures |Missing(s, r, s.place[table].level, mid, end)| >= 1
  {
    var level := s.place[table].level;
    PartLeafLevel(s, r, table, i, mid, end, mid);
    QueryInSlot(s, table, i, mid);
    assert NeedsTable(s, r, level, mid, level - 1);
    assert (level - 1, SpanBase(s.g, level - 1 + 1, mid)) in Missing(s, r, level, mid, end);
    SubsetSize({(level - 1, SpanBase(s.g, level, mid))}, Missing(s, r, level, mid, end));
  }

  lemma WalkEndsBelow(s: Tables, table: nat, i: nat, va: nat)
    requires Valid(s) && table in s.mem && i < |s.mem[table]| && IsTable(s.place[table].level, s.mem[table][i])
    requires InSlot(s, table, i, va)
    ensures Query(s, va).level < s.place[table].level
  {
    ChildCoversSlot(s, table, i, va);
    var p, j := WalkEnd(s, s.mem[table][i].addr, va);
  }

  lemma NeedsBelow(s: Tables, g: Tables, r: Request, table: nat, i: nat, next: nat, mid: nat, end: nat, va: nat, l: nat)
    requires ChunkOf(s, r, table, i, mid, end) && Descends(s, g, table, i, next) && !TakesLeaf(s, r, table, mid, end)
    requires mid <= va < end
    ensures SpanBase(s.g, s.place[table].level, va) == SlotBase(s, table, i)
    ensures NeedsTable(s, r, s.place[table].level, va, l) <==>
            || NeedsTable(g, Part(r, mid, end), s.place[table].level - 1, va, l)
            || (s.mem[table][i] == CLEAR && l == s.place[table].level - 1)
  {
    PartLeafLevel(s, r, table, i, mid, end, va);
    ChunkLeafLevel(s, r, table, i, mid, end, va);
    if s.mem[table][i] != CLEAR {
      WalkEndsBelow(s, table, i, va);
    }
  }

  /** Below its slot the request lacks the table of the slot, if that is clear, and what the part lacks below it. */
  lemma MissingBelow(s: Tables, g: Tables, r: Request, table: nat, i: nat, next: nat, mid: nat, end: nat)
    requires ChunkOf(s, r, table, i, mid, end) && Descends(s, g, table, i, next) && !TakesLeaf(s, r, table, mid, end)
    ensures |Missing(s, r, s.place[table].level, mid, end)| ==
            (if s.mem[table][i] == CLEAR then 1 else 0)
            + |Missing(g, Part(r, mid, end), s.place[table].level - 1, mid, end)|
  {
    var level := s.place[table].level;
    var part := Part(r, mid, end);
    var below := Missing(g, part, level - 1, mid, end);
    var own := if s.mem[table][i] == CLEAR then {(level - 1, SlotBase(s, table, i))} else {};
    forall va: nat | mid <= va < end
      ensures SpanBase(s.g, level, va) == SlotBase(s, table, i)
    {
      NeedsBelow(s, g, r, table, i, next, mid, end, va, 0);
    }
    forall va: nat, l: nat | mid <= va < end
      ensures NeedsTable(s, r, level, va, l) <==>
              NeedsTable(g, part, level - 1, va, l) || (s.mem[table][i] == CLEAR && l == level - 1)
    {
      NeedsBelow(s, g, r, table, i, next, mid, end, va, l);
    }
    BelowIs(s, g, r, part, level, SlotBase(s, table, i), s.mem[table][i] == CLEAR, mid, end);
    assert own !! below;
  }

  lemma BelowIs(s: Tables, g: Tables, r: Request, part: Request, level: nat, base: nat, clear: bool, mid: nat, end: nat)
    requires s.g.Valid() && g.g == s.g && level > 0 && mid < end
    requires forall va: nat :: mid <= va < end ==> SpanBase(s.g, level, va) == base
    requires forall va: nat, l: nat | mid <= va < end ::
               NeedsTable(s, r, level, va, l) <==> NeedsTable(g, part, level - 1, va, l) || (clear && l == level - 1)
    ensures Missing(s, r, level, mid, end) ==
            (if clear then {(level - 1, base)} else {}) + Missing(g, part, level - 1, mid, end)
  {
    var all, below := Missing(s, r, level, mid, end), Missing(g, part, level - 1, mid, end);
    hide NeedsTable, SpanBase;
    forall x | x in below
      ensures x in all
    {
      var va: nat, l: nat :| mid <= va < end && l < level - 1 && NeedsTable(g, part, level - 1, va, l)
                             && x == (l, SpanBase(g.g, l + 1, va));
      assert NeedsTable(s, r, level, va, l);
    }
    if clear {
      assert NeedsTable(s, r, level, mid, level - 1);
      assert (level - 1, SpanBase(s.g, level - 1 + 1, mid)) in all;
    }
    forall x | x in all && x !in below
      ensures clear && x == (level - 1, base)
    {
      var va: nat, l: nat :| mid <= va < end && l < level && NeedsTable(s, r, level, va, l)
                             && x == (l, SpanBase(s.g, l + 1, va));
      if l >= level - 1 {
        NotAtTop(g, part, level - 1, va, l);
      }
    }
  }

  lemma NotAtTop(s: Tables, r: Request, level: nat, va: nat, l: nat)
    requires s.g.Valid() && l >= level
    ensures !NeedsTable(s, r, level, va, l)
  {
  }

  // ---- the turns of the loop ----

  /** Tables asked for by the loop after lo..mid, all granted. */
  ghost predicate SoFar(s0: Tables, r: Request, table: nat, mid: nat, grants: nat -> bool, a0: nat, n0: nat, a: nat, n: nat)
    requires s0.g.Valid() && table in s0.place
  {
    Tally(grants, a0, n0, a, n, |Missing(s0, r, s0.place[table].level, r.lo, mid)|, true, false)
  }

  lemma SoFarIs(s0: Tables, r: Request, table: nat, mid: nat, grants: nat -> bool, a0: nat, n0: nat, a: nat, n: nat)
    requires s0.g.Valid() && table in s0.place
    ensures SoFar(s0, r, table, mid, grants, a0, n0, a, n)
       <==> Tally(grants, a0, n0, a, n, |Missing(s0, r, s0.place[table].level, r.lo, mid)|, true, false)
  {
  }

  lemma SoFarStart(s: Tables, r: Request, table: nat, grants: nat -> bool, a: nat, n: nat)
    requires s.g.Valid() && table in s.place
    ensures SoFar(s, r, table, r.lo, grants, a, n, a, n)
  {
    assert Missing(s, r, s.place[table].level, r.lo, r.lo) == {};
  }

  lemma TurnFacts(s0: Tables, s: Tables, r: Request, table: nat, i: nat, mid: nat, rem: nat, pa: nat, chunk: nat)
    requires ChunkReady(s0, s, r, table, i, mid, rem, pa, chunk)
    ensures s0.g == s.g && s0.g.Valid() && table in s0.place && table in s.place && s0.place[table] == s.place[table]
    ensures r.lo <= mid < mid + chunk <= r.hi
    ensures mid == r.lo || Rem(mid, BlockSize(s.g, s.place[table].level)) == 0
    ensures forall va: nat :: mid <= va < mid + chunk ==> Query(s0, va) == Query(s, va)
  {
    SlotBaseAligned(s, table, i);
  }

  lemma MissingOfTurn(s0: Tables, s: Tables, r: Request, table: nat, i: nat, mid: nat, rem: nat, pa: nat, chunk: nat)
    requires ChunkReady(s0, s, r, table, i, mid, rem, pa, chunk)
    ensures s0.g == s.g && s0.g.Valid() && table in s0.place && table in s.place && s0.place[table] == s.place[table]
    ensures r.lo <= mid < mid + chunk <= r.hi
    ensures |Missing(s0, r, s0.place[table].level, r.lo, mid + chunk)| ==
            |Missing(s0, r, s0.place[table].level, r.lo, mid)|
            + |Missing(s, r, s.place[table].level, mid, mid + chunk)|
  {
    hide *;
    TurnFacts(s0, s, r, table, i, mid, rem, pa, chunk);
    var level := s0.place[table].level;
    MissingAgree(s0, s, r, level, mid, mid + chunk);
    MissingSplit(s0, r, level, r.lo, mid, mid + chunk);
  }

  /** One more turn: what the part asks for is added. */
  lemma TurnTally(s0: Tables, s: Tables, r: Request, table: nat, i: nat, mid: nat, rem: nat, pa: nat, chunk: nat,
                  grants: nat -> bool, a0: nat, n0: nat, a1: nat, n1: nat, a2: nat, n2: nat, ok: bool, refused: bool)
    requires ChunkReady(s0, s, r, table, i, mid, rem, pa, chunk)
    requires SoFar(s0, r, table, mid, grants, a0, n0, a1, n1)
    requires Tally(grants, a1, n1, a2, n2, |Missing(s, r, s.place[table].level, mid, mid + chunk)|, ok, refused)
    ensures ok ==> !refused && SoFar(s0, r, table, mid + chunk, grants, a0, n0, a2, n2)
    ensures !ok ==> Tally(grants, a0, n0, a2, n2, |Missing(s0, r, s0.place[table].level, r.lo, r.hi)|, false, refused)
  {
    hide *;
    MissingOfTurn(s0, s, r, table, i, mid, rem, pa, chunk);
    SoFarIs(s0, r, table, mid, grants, a0, n0, a1, n1);
    var level := s0.place[table].level;
    var before, turn := |Missing(s0, r, level, r.lo, mid)|, |Missing(s, r, level, mid, mid + chunk)|;
    TallyThen(grants, a0, n0, a1, n1, before, a2, n2, turn, ok, refused);
    if ok {
      TallyOk(grants, a0, n0, a2, n2, before + turn, refused);
      SoFarIs(s0, r, table, mid + chunk, grants, a0, n0, a2, n2);
    } else {
      MissingMonotone(s0, r, level, r.lo, mid + chunk, r.hi);
      TallyFailed(grants, a0, n0, a2, n2, n2, before + turn, |Missing(s0, r, level, r.lo, r.hi)|, refused);
    }
  }

  lemma TallyOk(grants: nat -> bool, a0: nat, n0: nat, a: nat, n: nat, need: nat, refused: bool)
    requires Tally(grants, a0, n0, a, n, need, true, refused)
    ensures !refused && Tally(grants, a0, n0, a, n, need, true, false)
  {
  }

  lemma LeafTally(s0: Tables, s: Tables, r: Request, table: nat, i: nat, mid: nat, pa: nat, chunk: nat,
                  grants: nat -> bool, a: nat, n: nat, ok: bool)
    requires LeafReady(s0, s, r, table, i, mid, pa, chunk)
    ensures Tally(grants, a, n, a, n, |Missing(s, r, s.place[table].level, mid, mid + chunk)|, ok, false)
  {
    MissingLeaf(s, r, table, i, mid, mid + chunk);
    NothingAsked(grants, a, n, 0, ok);
  }

  lemma NoDescentTally(s0: Tables, s: Tables, r: Request, table: nat, i: nat, mid: nat, rem: nat, pa: nat, chunk: nat,
                       grants: nat -> bool, a0: nat, n0: nat, a: nat, n: nat, refused: bool)
    requires BelowReady(s0, s, r, table, i, mid, rem, pa, chunk)
    requires Tally(grants, a0, n0, a, n, if s.mem[table][i] == CLEAR then 1 else 0, false, refused)
    ensures Tally(grants, a0, n0, a, n, |Missing(s, r, s.place[table].level, mid, mid + chunk)|, false, refused)
  {
    if s.mem[table][i] == CLEAR {
      MissingClear(s, r, table, i, mid, mid + chunk);
    }
  }

  lemma ReadyBelow(s0: Tables, s: Tables, g: Tables, r: Request, table: nat, i: nat, next: nat, mid: nat, rem: nat,
                   pa: nat, chunk: nat)
    requires BelowReady(s0, s, r, table, i, mid, rem, pa, chunk) && Descends(s, g, table, i, next)
    ensures s.place[table].level > 0 && g.g.Valid()
    ensures ChunkOf(s, r, table, i, mid, mid + chunk) && table in s.place && r.lo <= mid
    ensures !TakesLeaf(s, r, table, mid, mid + chunk)
  {
  }

  lemma BelowTally(s0: Tables, s: Tables, g: Tables, r: Request, table: nat, i: nat, next: nat, mid: nat, rem: nat,
                   pa: nat, chunk: nat, grants: nat -> bool, a0: nat, n0: nat, a1: nat, n1: nat, a2: nat, n2: nat,
                   ok: bool, refused: bool)
    requires BelowReady(s0, s, r, table, i, mid, rem, pa, chunk) && Descends(s, g, table, i, next)
    requires Tally(grants, a0, n0, a1, n1, if s.mem[table][i] == CLEAR then 1 else 0, true, false)
    requires Tally(grants, a1, n1, a2, n2,
                   |Missing(g, Part(r, mid, mid + chunk), s.place[table].level - 1, mid, mid + chunk)|, ok, refused)
    ensures Tally(grants, a0, n0, a2, n2, |Missing(s, r, s.place[table].level, mid, mid + chunk)|, ok, refused)
  {
    hide *;
    ReadyBelow(s0, s, g, r, table, i, next, mid, rem, pa, chunk);
    MissingBelow(s, g, r, table, i, next, mid, mid + chunk);
    TallyThen(grants, a0, n0, a1, n1, if s.mem[table][i] == CLEAR then 1 else 0, a2, n2,
              |Missing(g, Part(r, mid, mid + chunk), s.place[table].level - 1, mid, mid + chunk)|, ok, refused);
  }

  /**
   * A request that is not blocked succeeds exactly if the allocator grants the tables that are missing:
   * a caller can tell before the call.
   */
  lemma GrantedIff(grants: nat -> bool, a0: nat, n0: nat, a: nat, n: nat, need: nat, ok: bool, refused: bool, blocked: bool)
    requires Tally(grants, a0, n0, a, n, need, ok, refused) && (!refused ==> (ok <==> !blocked))
    ensures ok <==> !blocked && AllGranted(grants, a0, n0, a0 + need)
  {
  }
}

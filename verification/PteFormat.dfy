/**
 * The bits of a descriptor: VMSAv8-64 block and page descriptors as
 * arch/arm64/include/arch/arm64/mmu.h lays them out.
 */
module PteFormat {
  import opened PageTable

  const DESCRIPTOR_MASK: bv64 := 3
  /** MMU_PTE_OUTPUT_ADDR_MASK: bits 47 to 12. */
  const OUTPUT_ADDR_MASK: bv64 := 0x0000_FFFF_FFFF_F000

  const ATTR_UXN: bv64 := 1 << 54
  const ATTR_PXN: bv64 := 1 << 53
  const ATTR_AF: bv64 := 1 << 10
  const ATTR_SH_INNER_SHAREABLE: bv64 := 3 << 8
  const ATTR_AP_MASK: bv64 := 3 << 6
  const ATTR_AP_P_RW_U_NA: bv64 := 0
  const ATTR_AP_P_RW_U_RW: bv64 := 1 << 6
  const ATTR_AP_P_RO_U_NA: bv64 := 2 << 6
  const ATTR_AP_P_RO_U_RO: bv64 := 3 << 6
  const ATTR_NON_SECURE: bv64 := 1 << 5
  const ATTR_INDEX_MASK: bv64 := 7 << 2
  const ATTR_STRONGLY_ORDERED: bv64 := 0
  const ATTR_DEVICE: bv64 := 1 << 2
  const ATTR_NORMAL_MEMORY: bv64 := 2 << 2

  const FLAG_CACHED: bv32 := 0
  const FLAG_UNCACHED: bv32 := 1
  const FLAG_UNCACHED_DEVICE: bv32 := 2
  const FLAG_CACHE_MASK: bv32 := 3
  const FLAG_PERM_USER: bv32 := 4
  const FLAG_PERM_RO: bv32 := 8
  const FLAG_PERM_NO_EXECUTE: bv32 := 16
  const FLAG_NS: bv32 := 32

  /** ERR_INVALID_ARGS, -8, converted to pte_t. */
  const INVALID_ARGS_AS_PTE: bv64 := 0xFFFF_FFFF_FFFF_FFF8

  /** mmu_flags_to_pte_attr */
  function FlagsToAttr(flags: bv32): bv64 {
    if flags & FLAG_CACHE_MASK == 3 then INVALID_ARGS_AS_PTE
    else
      ATTR_AF
      | (if flags & FLAG_CACHE_MASK == FLAG_CACHED then ATTR_NORMAL_MEMORY | ATTR_SH_INNER_SHAREABLE
         else if flags & FLAG_CACHE_MASK == FLAG_UNCACHED then ATTR_STRONGLY_ORDERED
         else ATTR_DEVICE)
      | (if flags & (FLAG_PERM_USER | FLAG_PERM_RO) == 0 then ATTR_AP_P_RW_U_NA
         else if flags & (FLAG_PERM_USER | FLAG_PERM_RO) == FLAG_PERM_RO then ATTR_AP_P_RO_U_NA
         else if flags & (FLAG_PERM_USER | FLAG_PERM_RO) == FLAG_PERM_USER then ATTR_AP_P_RW_U_RW
         else ATTR_AP_P_RO_U_RO)
      | (if flags & FLAG_PERM_NO_EXECUTE != 0 then ATTR_UXN | ATTR_PXN else 0)
      | (if flags & FLAG_NS != 0 then ATTR_NON_SECURE else 0)
  }

  datatype Flags = Unknown | Flags(flags: bv32)

  /** The flags that arch_mmu_query reads out of a descriptor, lines 171 to 203. */
  function AttrToFlags(pte: bv64): Flags {
    if pte & ATTR_INDEX_MASK !in {ATTR_STRONGLY_ORDERED, ATTR_DEVICE, ATTR_NORMAL_MEMORY} then Unknown
    else
      Flags(
        (if pte & ATTR_NON_SECURE != 0 then FLAG_NS else 0)
        | (if pte & ATTR_INDEX_MASK == ATTR_STRONGLY_ORDERED then FLAG_UNCACHED
           else if pte & ATTR_INDEX_MASK == ATTR_DEVICE then FLAG_UNCACHED_DEVICE
           else 0)
        | (if pte & ATTR_AP_MASK == ATTR_AP_P_RW_U_NA then 0
           else if pte & ATTR_AP_MASK == ATTR_AP_P_RW_U_RW then FLAG_PERM_USER
           else if pte & ATTR_AP_MASK == ATTR_AP_P_RO_U_NA then FLAG_PERM_RO
           else FLAG_PERM_USER | FLAG_PERM_RO)
        | (if pte & ATTR_UXN != 0 && pte & ATTR_PXN != 0 then FLAG_PERM_NO_EXECUTE else 0))
  }

  /** The six flags that have a meaning. */
  const FLAGS_MASK: bv32 := 0x3f

  /** Flags survive the trip through a descriptor, whatever its address and type. */
  lemma FlagsRoundTrip(flags: bv32, rest: bv64)
    requires flags & FLAG_CACHE_MASK != 3
    requires rest & !(OUTPUT_ADDR_MASK | DESCRIPTOR_MASK) == 0
    ensures AttrToFlags(FlagsToAttr(flags) | rest) == Flags(flags & FLAGS_MASK)
  {
  }

  /** The attribute word keeps off the address and type fields exactly when the cache flag is valid. */
  lemma AttrsLeaveRoom(flags: bv32)
    ensures AttrsFit(AttrBits(FlagsToAttr(flags))) <==> flags & FLAG_CACHE_MASK != 3
    ensures FlagsToAttr(flags) != 0
  {
  }

  /** Which bits the flags set, by position: AF, shareability, memory type, access, execution, security. */
  ghost predicate BitsOfFlags(w: bv64, flags: bv32) {
    && (w >> 10) & 1 == 1
    && (w >> 8) & 3 == (if flags & 3 == 0 then 3 else 0)
    && (w >> 2) & 7 == (if flags & 3 == 0 then 2 else if flags & 3 == 1 then 0 else 1)
    && ((w >> 7) & 1 == 1 <==> flags & 8 != 0)
    && ((w >> 6) & 1 == 1 <==> flags & 4 != 0)
    && ((w >> 54) & 1 == 1 <==> flags & 16 != 0)
    && ((w >> 53) & 1 == 1 <==> flags & 16 != 0)
    && ((w >> 5) & 1 == 1 <==> flags & 32 != 0)
  }

  /** The attributes set these bits and no others. */
  lemma AttrBitsOf(flags: bv32)
    requires flags & 3 != 3
    ensures BitsOfFlags(FlagsToAttr(flags), flags)
    ensures FlagsToAttr(flags) & 0xFF9F_FFFF_FFFF_F803 == 0
  {
  }

  /** What a query reads, by position; memory types from 3 on have no flags. */
  lemma FlagBitsOf(w: bv64)
    ensures AttrToFlags(w).Unknown? <==> (w >> 2) & 7 > 2
    ensures AttrToFlags(w).Flags? ==>
              var f := AttrToFlags(w).flags;
              && f & 3 == (if (w >> 2) & 7 == 2 then 0 else if (w >> 2) & 7 == 0 then 1 else 2)
              && (f & 8 != 0 <==> (w >> 7) & 1 == 1) && (f & 4 != 0 <==> (w >> 6) & 1 == 1)
              && (f & 16 != 0 <==> (w >> 54) & 1 == 1 && (w >> 53) & 1 == 1)
              && (f & 32 != 0 <==> (w >> 5) & 1 == 1) && f & 0xFFFF_FFC0 == 0
  {
  }

  // ---- descriptors as 64-bit words ----

  const FIELDS_MASK: bv64 := 0x0000_FFFF_FFFF_F003

  /** A descriptor as it stands in memory. */
  datatype PteWord = PteWord(bits: bv64)

  const ZERO := PteWord(0)

  /** The descriptor that a 64-bit word is, taken apart with the masks of the source. */
  function Decode(w: PteWord): Pte {
    Pte((w.bits & DESCRIPTOR_MASK) as nat,
        ((w.bits & OUTPUT_ADDR_MASK) >> 12) as nat * PAGE_GRAIN,
        AttrBits(w.bits & !FIELDS_MASK))
  }

  /** paddr | attrs | type, where paddr is page `page`, below 2^48. */
  function Word(page: bv36, attrs: bv64, desc: bv2): bv64 {
    (page as bv64 << 12) | attrs | (desc as bv64)
  }

  /** An or of the three keeps them apart exactly if each stays in its own field. */
  lemma KeptApartIff(paddr: bv64, attrs: bv64, desc: bv64)
    requires desc & DESCRIPTOR_MASK == desc
    ensures var w := paddr | attrs | desc;
            (w & OUTPUT_ADDR_MASK == paddr && w & !FIELDS_MASK == attrs && w & DESCRIPTOR_MASK == desc)
            <==> (paddr & OUTPUT_ADDR_MASK == paddr && attrs & FIELDS_MASK == 0)
  {
  }

  lemma WordBits(page: bv36, attrs: bv64, desc: bv2)
    requires attrs & FIELDS_MASK == 0
    ensures Word(page, attrs, desc) & DESCRIPTOR_MASK == desc as bv64
    ensures (Word(page, attrs, desc) & OUTPUT_ADDR_MASK) >> 12 == page as bv64
    ensures Word(page, attrs, desc) & !FIELDS_MASK == attrs
  {
  }

  lemma WidenPage(page: bv36)
    ensures page as bv64 as nat == page as nat
  {
  }

  lemma WidenType(desc: bv2)
    ensures desc as bv64 as nat == desc as nat
  {
  }

  /** Taking apart what was put together gives the parts. */
  lemma DecodeWord(page: bv36, attrs: bv64, desc: bv2)
    requires attrs & FIELDS_MASK == 0
    ensures Decode(PteWord(Word(page, attrs, desc))) == Pte(desc as nat, page as nat * PAGE_GRAIN, AttrBits(attrs))
  {
    WordBits(page, attrs, desc);
    WidenPage(page);
    WidenType(desc);
  }

  /** Putting together what was taken apart gives the word: nothing is lost. */
  lemma WordDecode(w: PteWord) returns (page: bv36, desc: bv2)
    ensures w.bits == Word(page, w.bits & !FIELDS_MASK, desc)
    ensures Decode(w) == Pte(desc as nat, page as nat * PAGE_GRAIN, AttrBits(w.bits & !FIELDS_MASK))
  {
    page, desc := ((w.bits & OUTPUT_ADDR_MASK) >> 12) as bv36, (w.bits & DESCRIPTOR_MASK) as bv2;
    DecodeWord(page, w.bits & !FIELDS_MASK, desc);
  }

  /** A physical address that fits the address field, and attribute bits that keep off the others. */
  predicate AddrFits(addr: nat) {
    addr < PHYS_LIMIT && addr % PAGE_GRAIN == 0
  }

  predicate AttrsFit(attrs: AttrBits) {
    attrs.bits & FIELDS_MASK == 0
  }

  function Encode(e: Pte): PteWord
    requires e.desc < 4 && AddrFits(e.addr) && AttrsFit(e.attrs)
  {
    PteWord(Word((e.addr / PAGE_GRAIN) as bv36, e.attrs.bits, e.desc as bv2))
  }

  lemma ShiftedTwice(x: bv36)
    requires x < 0x8_0000_0000
    ensures (x << 1) as nat == 2 * (x as nat)
  {
  }

  lemma ShiftedTwicePlusOne(x: bv36)
    requires x < 0x8_0000_0000
    ensures ((x << 1) | 1) as nat == 2 * (x as nat) + 1
  {
  }

  lemma BelowHalf(x: bv36)
    requires x as nat < 0x8_0000_0000
    ensures x < 0x8_0000_0000
  {
  }

  lemma {:induction false} PageOf(n: nat) returns (x: bv36)
    requires n < 0x10_0000_0000
    ensures x as nat == n
  {
    if n == 0 {
      x := 0;
    } else {
      var half := PageOf(n / 2);
      BelowHalf(half);
      if n % 2 == 0 {
        ShiftedTwice(half);
        x := half << 1;
      } else {
        ShiftedTwicePlusOne(half);
        x := (half << 1) | 1;
      }
    }
  }

  lemma ReadBack(x: bv36, n: nat)
    requires x as nat == n
    ensures n as bv36 == x
  {
  }

  lemma NarrowPage(n: nat)
    requires n < 0x10_0000_0000
    ensures n as bv36 as nat == n
  {
    var x := PageOf(n);
    ReadBack(x, n);
  }

  lemma NarrowType(n: nat)
    requires n < 4
    ensures n as bv2 as nat == n
  {
  }

  /** A stored descriptor is read back as it was meant. */
  lemma DecodeEncode(e: Pte)
    requires e.desc < 4 && AddrFits(e.addr) && AttrsFit(e.attrs)
    ensures Decode(Encode(e)) == e
  {
    NarrowPage(e.addr / PAGE_GRAIN);
    NarrowType(e.desc);
    DecodeWord((e.addr / PAGE_GRAIN) as bv36, e.attrs.bits, e.desc as bv2);
  }

  /** Whatever a word is, its parts fit. */
  lemma DecodedFits(w: PteWord)
    ensures Decode(w).desc < 4 && AddrFits(Decode(w).addr) && AttrsFit(Decode(w).attrs)
  {
    var page, desc := WordDecode(w);
  }

  /** A stored word, by position: the type in bits 1:0, the page in bits 47:12, and the attributes. */
  lemma StoredBits(w: PteWord, flags: bv32)
    requires flags & 3 != 3 && Decode(w).attrs == AttrBits(FlagsToAttr(flags))
    ensures BitsOfFlags(w.bits, flags) && w.bits & 0xFF9F_0000_0000_0800 == 0
    ensures Decode(w).desc == (w.bits & 3) as nat
    ensures Decode(w).addr == ((w.bits >> 12) & 0xF_FFFF_FFFF) as nat * 4096
  {
    var bits := FlagsToAttr(flags);
    AttrBitsOf(flags);
    hide FlagsToAttr;
    WordOfAttrs(w.bits, bits, flags);
    AddressField(w.bits);
  }

  lemma WordOfAttrs(w: bv64, bits: bv64, flags: bv32)
    requires w & 0xFFFF_0000_0000_0FFC == bits && BitsOfFlags(bits, flags) && bits & 0xFF9F_FFFF_FFFF_F803 == 0
    ensures BitsOfFlags(w, flags) && w & 0xFF9F_0000_0000_0800 == 0
  {
  }

  lemma AddressField(w: bv64)
    ensures (w & 0x0000_FFFF_FFFF_F000) >> 12 == (w >> 12) & 0xF_FFFF_FFFF
  {
  }

  /** The source's test of a whole word against zero is the model's test for a clear descriptor. */
  lemma ZeroIsClear(w: PteWord)
    ensures w == ZERO <==> Decode(w) == CLEAR
  {
    var page, desc := WordDecode(w);
    assert page == 0 <==> page as nat == 0;
    assert desc == 0 <==> desc as nat == 0;
  }

  /** The flags read from a whole word depend on its attribute bits only. */
  lemma FlagsOfWord(w: PteWord)
    ensures AttrToFlags(w.bits) == AttrToFlags(Decode(w).attrs.bits)
  {
  }
}

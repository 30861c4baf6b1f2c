/**
 * c_memmove and c_memset of app/stringtests/string_tests.c on an array of bytes that
 * starts at address `base`.  A word is `lsize` bytes; it may be loaded and stored only at
 * an address that is a multiple of `lsize`.
 */
module MemMove {
  import opened Arith

  type Byte = bv8

  const INT_LIMIT: nat := 0x8000_0000

  /** sizeof(long) */
  predicate WordSize(lsize: nat) {
    lsize == 4 || lsize == 8
  }

  /** memmove: the `n` bytes at `d` become what the `n` bytes at `s` were. */
  function Moved(m: seq<Byte>, d: nat, s: nat, n: nat): (r: seq<Byte>)
    requires d + n <= |m| && s + n <= |m|
    ensures |r| == |m|
  {
    m[..d] + m[s..s + n] + m[d + n..]
  }

  /** memset: the `n` bytes at `d` become `c`. */
  function Filled(m: seq<Byte>, d: nat, n: nat, c: Byte): (r: seq<Byte>)
    requires d + n <= |m|
    ensures |r| == |m|
  {
    m[..d] + seq(n, _ => c) + m[d + n..]
  }

  /** What Moved means byte by byte: the destination gets the source's old bytes, and nothing else changes. */
  lemma MovedAt(m: seq<Byte>, d: nat, s: nat, n: nat, i: nat)
    requires d + n <= |m| && s + n <= |m| && i < |m|
    ensures Moved(m, d, s, n)[i] == if d <= i < d + n then m[s + (i - d)] else m[i]
  {
  }

  /** Moving to lower addresses, the front part first. */
  lemma MoveUp(m: seq<Byte>, d: nat, s: nat, a: nat, b: nat)
    requires d <= s && s + a + b <= |m|
    ensures Moved(Moved(m, d, s, a), d + a, s + a, b) == Moved(m, d, s, a + b)
  {
    var m1 := Moved(m, d, s, a);
    assert m1[s + a..s + a + b] == m[s + a..s + a + b];
    assert m1[..d + a] == m[..d] + m[s..s + a];
    assert m1[d + a + b..] == m[d + a + b..];
    assert m[s..s + a] + m[s + a..s + a + b] == m[s..s + (a + b)];
  }

  /** Moving to higher addresses, the back part first. */
  lemma MoveDown(m: seq<Byte>, d: nat, s: nat, a: nat, b: nat)
    requires s <= d && d + a + b <= |m|
    ensures Moved(Moved(m, d + b, s + b, a), d, s, b) == Moved(m, d, s, a + b)
  {
    var m1 := Moved(m, d + b, s + b, a);
    assert m1[s..s + b] == m[s..s + b];
    assert m1[..d] == m[..d];
    assert m1[d + b..] == m[s + b..s + b + a] + m[d + b + a..];
    assert m[s..s + b] + m[s + b..s + b + a] == m[s..s + (a + b)];
  }

  lemma MoveOne(m: seq<Byte>, d: nat, s: nat)
    requires d < |m| && s < |m|
    ensures Moved(m, d, s, 1) == m[d := m[s]]
  {
  }

  lemma MoveNone(m: seq<Byte>, d: nat, s: nat)
    requires d <= |m| && s <= |m|
    ensures Moved(m, d, s, 0) == m
  {
  }

  // ---- words ----

  predicate Aligned(base: nat, p: nat, lsize: nat)
    requires lsize > 0
  {
    Rem(base + p, lsize) == 0
  }

  /** *(word *)d = *(word *)s */
  method CopyWord(mem: array<Byte>, base: nat, lsize: nat, d: nat, s: nat)
    requires lsize > 0 && d + lsize <= mem.Length && s + lsize <= mem.Length
    requires Aligned(base, d, lsize) && Aligned(base, s, lsize)
    modifies mem
    ensures mem[..] == Moved(old(mem[..]), d, s, lsize)
  {
    var word := mem[s..s + lsize];
    forall i | 0 <= i < lsize {
      mem[d + i] := word[i];
    }
    forall i | 0 <= i < mem.Length
      ensures mem[i] == Moved(old(mem[..]), d, s, lsize)[i]
    {
      MovedAt(old(mem[..]), d, s, lsize, i);
    }
  }

  // ---- the loops of c_memmove ----

  /** for (; len > 0; len--) *d++ = *s++; */
  method BytesUp(mem: array<Byte>, d0: nat, s0: nat, len0: nat)
    requires d0 <= s0 && s0 + len0 <= mem.Length
    modifies mem
    ensures mem[..] == Moved(old(mem[..]), d0, s0, len0)
  {
    hide Moved;
    var d: nat, s: nat, len: nat := d0, s0, len0;
    MoveNone(mem[..], d, s);
    while len > 0
      invariant d == d0 + (len0 - len) && s == s0 + (len0 - len) && len <= len0
      invariant mem[..] == Moved(old(mem[..]), d0, s0, len0 - len)
    {
      MoveUp(old(mem[..]), d0, s0, len0 - len, 1);
      MoveOne(mem[..], d, s);
      ghost var m := mem[..];
      mem[d] := mem[s];
      assert mem[..] == m[d := m[s]];
      d, s, len := d + 1, s + 1, len - 1;
    }
  }

  /** The word loop towards higher addresses; it leaves the pointers after the last word. */
  method WordsUp(mem: array<Byte>, base: nat, lsize: nat, d0: nat, s0: nat, len0: nat) returns (d: nat, s: nat)
    requires lsize > 0 && d0 <= s0 && s0 + Times(len0, lsize) <= mem.Length
    requires len0 > 0 ==> Aligned(base, d0, lsize) && Aligned(base, s0, lsize)
    modifies mem
    ensures d == d0 + Times(len0, lsize) && s == s0 + Times(len0, lsize)
    ensures mem[..] == Moved(old(mem[..]), d0, s0, Times(len0, lsize))
  {
    hide Moved, Rem;
    d, s := d0, s0;
    var len: nat := len0;
    ghost var done: nat := 0;
    MoveNone(mem[..], d, s);
    while len > 0
      invariant len <= len0 && done + Times(len, lsize) == Times(len0, lsize) && d == d0 + done && s == s0 + done
      invariant len > 0 ==> Aligned(base, d, lsize) && Aligned(base, s, lsize)
      invariant mem[..] == Moved(old(mem[..]), d0, s0, done)
    {
      MoveUp(old(mem[..]), d0, s0, done, lsize);
      CopyWord(mem, base, lsize, d, s);
      AlignedAbove(base, d, lsize);
      AlignedAbove(base, s, lsize);
      d, s, len := d + lsize, s + lsize, len - 1;
      done := done + lsize;
    }
  }

  /** for (; len > 0; len--) *--d = *--s; with `d0` and `s0` past the end */
  method BytesDown(mem: array<Byte>, d0: nat, s0: nat, len0: nat)
    requires s0 <= d0 <= mem.Length && len0 <= s0
    modifies mem
    ensures mem[..] == Moved(old(mem[..]), d0 - len0, s0 - len0, len0)
  {
    hide Moved;
    var d: nat, s: nat, len: nat := d0, s0, len0;
    MoveNone(mem[..], d, s);
    while len > 0
      invariant d == d0 - (len0 - len) && s == s0 - (len0 - len) && len <= len0
      invariant mem[..] == Moved(old(mem[..]), d, s, len0 - len)
    {
      MoveDown(old(mem[..]), d - 1, s - 1, len0 - len, 1);
      d, s := d - 1, s - 1;
      MoveOne(mem[..], d, s);
      ghost var m := mem[..];
      mem[d] := mem[s];
      assert mem[..] == m[d := m[s]];
      len := len - 1;
    }
  }

  /** The word loop towards lower addresses. */
  method WordsDown(mem: array<Byte>, base: nat, lsize: nat, d0: nat, s0: nat, len0: nat) returns (d: nat, s: nat)
    requires lsize > 0 && s0 <= d0 <= mem.Length && Times(len0, lsize) <= s0
    requires len0 > 0 ==> Aligned(base, d0, lsize) && Aligned(base, s0, lsize)
    modifies mem
    ensures d == d0 - Times(len0, lsize) && s == s0 - Times(len0, lsize)
    ensures mem[..] == Moved(old(mem[..]), d, s, Times(len0, lsize))
  {
    hide Moved, Rem;
    d, s := d0, s0;
    var len: nat := len0;
    ghost var done: nat := 0;
    MoveNone(mem[..], d, s);
    while len > 0
      invariant len <= len0 && done + Times(len, lsize) == Times(len0, lsize) && d == d0 - done && s == s0 - done
      invariant len > 0 ==> Aligned(base, d, lsize) && Aligned(base, s, lsize)
      invariant mem[..] == Moved(old(mem[..]), d, s, done)
    {
      MoveDown(old(mem[..]), d - lsize, s - lsize, done, lsize);
      AlignedBelow(base, d, lsize);
      AlignedBelow(base, s, lsize);
      d, s := d - lsize, s - lsize;
      CopyWord(mem, base, lsize, d, s);
      len := len - 1;
      done := done + lsize;
    }
  }

  lemma NoWords(lsize: nat)
    requires lsize > 0
    ensures Quot(0, lsize) == 0
  {
  }

  lemma AlignedAbove(base: nat, p: nat, lsize: nat)
    requires lsize > 0 && Aligned(base, p, lsize)
    ensures Aligned(base, p + lsize, lsize)
  {
  }

  lemma AlignedBelow(base: nat, p: nat, lsize: nat)
    requires lsize > 0 && lsize <= p && Aligned(base, p, lsize)
    ensures Aligned(base, p - lsize, lsize)
  {
  }

  /** The distance to the next word boundary brings every pointer with the same offset to one. */
  lemma NextBoundary(base: nat, d: nat, p: nat, lsize: nat)
    requires lsize > 0 && Rem(base + d, lsize) == Rem(base + p, lsize)
    ensures Aligned(base, p + (lsize - Rem(base + d, lsize)), lsize)
  {
    RemOfBase(base + p, lsize);
  }

  lemma PreviousBoundary(base: nat, d: nat, p: nat, lsize: nat)
    requires lsize > 0 && Rem(base + d, lsize) == Rem(base + p, lsize) && Rem(base + d, lsize) <= p
    ensures Aligned(base, p - Rem(base + d, lsize), lsize)
  {
    RemOfBase(base + p, lsize);
  }

  /** The part of c_memmove for a destination below the source. */
  method MoveToLower(mem: array<Byte>, base: nat, lsize: nat, d0: nat, s0: nat, count0: nat)
    requires WordSize(lsize) && d0 < s0 && s0 + count0 <= mem.Length
    modifies mem
    ensures mem[..] == Moved(old(mem[..]), d0, s0, count0)
  {
    hide Moved, Rem, Times, Quot;
    NoWords(lsize);
    var d: nat, s: nat, count: nat := d0, s0, count0;
    ghost var done: nat := 0;
    MoveNone(mem[..], d, s);
    if Rem(base + d, lsize) != 0 || Rem(base + s, lsize) != 0 {
      var len: nat;
      if Rem(base + d, lsize) != Rem(base + s, lsize) || count < lsize {
        len := count;
      } else {
        len := lsize - Rem(base + d, lsize);
        NextBoundary(base, d, d, lsize);
        NextBoundary(base, d, s, lsize);
      }
      count := count - len;
      BytesUp(mem, d, s, len);
      d, s, done := d + len, s + len, len;
    }
    QuotRem(count, lsize);
    MoveUp(old(mem[..]), d0, s0, done, Times(Quot(count, lsize), lsize));
    d, s := WordsUp(mem, base, lsize, d, s, Quot(count, lsize));
    done := done + Times(Quot(count, lsize), lsize);
    MoveUp(old(mem[..]), d0, s0, done, Rem(count, lsize));
    BytesUp(mem, d, s, Rem(count, lsize));
  }

  /** The part of c_memmove for a destination above the source. */
  method MoveToHigher(mem: array<Byte>, base: nat, lsize: nat, d0: nat, s0: nat, count0: nat)
    requires WordSize(lsize) && s0 < d0 && d0 + count0 <= mem.Length
    modifies mem
    ensures mem[..] == Moved(old(mem[..]), d0, s0, count0)
  {
    hide Moved, Rem, Times, Quot;
    NoWords(lsize);
    var d: nat, s: nat, count: nat := d0 + count0, s0 + count0, count0;
    ghost var done: nat := 0;
    MoveNone(mem[..], d, s);
    if Rem(base + d, lsize) != 0 || Rem(base + s, lsize) != 0 {
      var len: nat;
      if Rem(base + d, lsize) != Rem(base + s, lsize) || count <= lsize {
        len := count;
      } else {
        len := Rem(base + d, lsize);
        PreviousBoundary(base, d, d, lsize);
        PreviousBoundary(base, d, s, lsize);
      }
      count := count - len;
      BytesDown(mem, d, s, len);
      d, s, done := d - len, s - len, len;
    }
    QuotRem(count, lsize);
    MoveDown(old(mem[..]), d0 + Rem(count, lsize), s0 + Rem(count, lsize), done, Times(Quot(count, lsize), lsize));
    d, s := WordsDown(mem, base, lsize, d, s, Quot(count, lsize));
    done := done + Times(Quot(count, lsize), lsize);
    MoveDown(old(mem[..]), d0, s0, done, Rem(count, lsize));
    BytesDown(mem, d, s, Rem(count, lsize));
  }

  /** c_memmove, for any alignment and any overlap: exactly a byte-wise memmove. */
  method CMemmove(mem: array<Byte>, base: nat, lsize: nat, dest: nat, src: nat, count: nat)
    requires WordSize(lsize) && count < INT_LIMIT && dest + count <= mem.Length && src + count <= mem.Length
    modifies mem
    ensures mem[..] == Moved(old(mem[..]), dest, src, count)
  {
    if count == 0 || dest == src {
      return;
    }
    if dest < src {
      MoveToLower(mem, base, lsize, dest, src, count);
    } else {
      MoveToHigher(mem, base, lsize, dest, src, count);
    }
  }

  // ---- c_memset ----

  /** Byte `i` of a word */
  function ByteAt(w: bv64, i: nat): bv64
    requires i < 8
  {
    match i
    case 0 => w & 0xff
    case 1 => (w >> 8) & 0xff
    case 2 => (w >> 16) & 0xff
    case 3 => (w >> 24) & 0xff
    case 4 => (w >> 32) & 0xff
    case 5 => (w >> 40) & 0xff
    case 6 => (w >> 48) & 0xff
    case _ => (w >> 56) & 0xff
  }

  /** cc |= cc << 8; cc |= cc << 16; if (sizeof(word) == 8) cc |= cc << 32 */
  function Replicated(b: bv64, lsize: nat): bv64 {
    var w1 := b | (b << 8);
    var w2 := w1 | (w1 << 16);
    if lsize == 8 then w2 | (w2 << 32) else w2
  }

  lemma ReplicatedBytes(b: bv64, lsize: nat, i: nat)
    requires b & 0xff == b && WordSize(lsize) && i < lsize
    ensures ByteAt(Replicated(b, lsize), i) == b
  {
  }

  lemma FilledNone(m: seq<Byte>, d: nat, c: Byte)
    requires d <= |m|
    ensures Filled(m, d, 0, c) == m
  {
  }

  lemma FilledOne(m: seq<Byte>, d: nat, n: nat, c: Byte)
    requires d + n < |m|
    ensures Filled(m, d, n, c)[d + n := c] == Filled(m, d, n + 1, c)
  {
  }

  lemma FilledThen(m: seq<Byte>, d: nat, a: nat, b: nat, c: Byte)
    requires d + a + b <= |m|
    ensures Filled(Filled(m, d, a, c), d + a, b, c) == Filled(m, d, a + b, c)
  {
  }

  /** *(word *)p = cc, where every byte of cc is `c` */
  method StoreWord(mem: array<Byte>, base: nat, lsize: nat, p: nat, cc: bv64, ghost c: Byte)
    requires WordSize(lsize) && p + lsize <= mem.Length && Aligned(base, p, lsize)
    requires forall i :: 0 <= i < lsize ==> ByteAt(cc, i) == c as bv64
    modifies mem
    ensures mem[..] == Filled(old(mem[..]), p, lsize, c)
  {
    hide Aligned;
    var i: nat := 0;
    FilledNone(mem[..], p, c);
    while i < lsize
      invariant i <= lsize && mem[..] == Filled(old(mem[..]), p, i, c)
    {
      FilledOne(old(mem[..]), p, i, c);
      ghost var m := mem[..];
      LowByte(cc, i, c);
      mem[p + i] := ByteAt(cc, i) as bv8;
      assert mem[..] == m[p + i := c];
      i := i + 1;
    }
  }

  lemma LowByte(cc: bv64, i: nat, c: Byte)
    requires i < 8 && ByteAt(cc, i) == c as bv64
    ensures ByteAt(cc, i) <= 0xff && ByteAt(cc, i) as bv8 == c
  {
  }

  /** for (; len > 0; len--) *xs++ = c; */
  method FillBytes(mem: array<Byte>, p: nat, len0: nat, c: Byte)
    requires p + len0 <= mem.Length
    modifies mem
    ensures mem[..] == Filled(old(mem[..]), p, len0, c)
  {
    hide Filled;
    var xs: nat, len: nat := p, len0;
    FilledNone(mem[..], p, c);
    while len > 0
      invariant len <= len0 && xs == p + (len0 - len)
      invariant mem[..] == Filled(old(mem[..]), p, len0 - len, c)
    {
      FilledOne(old(mem[..]), p, len0 - len, c);
      ghost var m := mem[..];
      mem[xs] := c;
      assert mem[..] == m[xs := c];
      xs, len := xs + 1, len - 1;
    }
  }

  /** The word loop of c_memset */
  method FillWords(mem: array<Byte>, base: nat, lsize: nat, p: nat, len0: nat, cc: bv64, ghost c: Byte) returns (xs: nat)
    requires WordSize(lsize) && p + Times(len0, lsize) <= mem.Length && Aligned(base, p, lsize)
    requires forall i :: 0 <= i < lsize ==> ByteAt(cc, i) == c as bv64
    modifies mem
    ensures xs == p + Times(len0, lsize) && mem[..] == Filled(old(mem[..]), p, Times(len0, lsize), c)
  {
    hide Filled, Rem, ByteAt;
    xs := p;
    var len: nat := len0;
    ghost var done: nat := 0;
    FilledNone(mem[..], p, c);
    while len > 0
      invariant len <= len0 && done + Times(len, lsize) == Times(len0, lsize) && xs == p + done
      invariant Aligned(base, xs, lsize) && mem[..] == Filled(old(mem[..]), p, done, c)
    {
      FilledThen(old(mem[..]), p, done, lsize, c);
      StoreWord(mem, base, lsize, xs, cc, c);
      AlignedAbove(base, xs, lsize);
      xs, len, done := xs + lsize, len - 1, done + lsize;
    }
  }

  /** (-(size_t)s) & lmask: the distance up to a word boundary */
  lemma ToBoundary(base: nat, p: nat, lsize: nat)
    requires lsize > 0
    ensures Rem(lsize - Rem(base + p, lsize), lsize) < lsize
    ensures Aligned(base, p + Rem(lsize - Rem(base + p, lsize), lsize), lsize)
  {
    if Rem(base + p, lsize) > 0 {
      NextBoundary(base, p, p, lsize);
    }
  }

  /** c_memset: exactly `count` copies of the byte, at any alignment. */
  method CMemset(mem: array<Byte>, base: nat, lsize: nat, p: nat, c: bv32, count0: nat)
    requires WordSize(lsize) && p + count0 <= mem.Length
    modifies mem
    ensures mem[..] == Filled(old(mem[..]), p, count0, (c & 0xff) as bv8)
  {
    hide Filled, Rem, Times, Quot, ByteAt, Replicated;
    var b: Byte := (c & 0xff) as bv8;
    var xs: nat, count: nat := p, count0;
    var len: nat := Rem(lsize - Rem(base + p, lsize), lsize);
    ghost var done: nat := 0;
    FilledNone(mem[..], p, b);
    if count > len {
      count := count - len;
      var cc := Replicated(b as bv64, lsize);
      AllBytes(b, lsize, cc);
      FillBytes(mem, xs, len, b);
      ToBoundary(base, p, lsize);
      QuotRem(count, lsize);
      FilledThen(old(mem[..]), p, len, Times(Quot(count, lsize), lsize), b);
      xs := FillWords(mem, base, lsize, xs + len, Quot(count, lsize), cc, b);
      done := len + Times(Quot(count, lsize), lsize);
      count := Rem(count, lsize);
    }
    FilledThen(old(mem[..]), p, done, count, b);
    FillBytes(mem, xs, count, b);
  }

  lemma AllBytes(b: Byte, lsize: nat, cc: bv64)
    requires WordSize(lsize) && cc == Replicated(b as bv64, lsize)
    ensures forall i :: 0 <= i < lsize ==> ByteAt(cc, i) == b as bv64
  {
    ByteIsLow(b);
    forall i | 0 <= i < lsize
      ensures ByteAt(cc, i) == b as bv64
    {
      ReplicatedBytes(b as bv64, lsize, i);
    }
  }

  lemma ByteIsLow(b: Byte)
    ensures (b as bv64) & 0xff == b as bv64
  {
  }
}

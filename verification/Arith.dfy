/**
 * Powers of two, and multiplication and division in a form that keeps the verifier's
 * nonlinear arithmetic out of the proofs of the other modules: `Times`, `Quot` and `Rem`
 * are `*`, `/` and `%` on natural numbers (TimesIsProduct, QuotRemIsDivision).
 */
module Arith {

  function Pow2(n: nat): (p: nat)
    ensures p >= 1
  {
    if n == 0 then 1 else 2 * Pow2(n - 1)
  }

  lemma {:induction false} Pow2Add(a: nat, b: nat)
    ensures Pow2(a + b) == Pow2(a) * Pow2(b)
    decreases b
  {
    if b == 0 {
    } else {
      Pow2Add(a, b - 1);
      assert Pow2(a + b) == 2 * Pow2(a + (b - 1));
      assert 2 * (Pow2(a) * Pow2(b - 1)) == Pow2(a) * (2 * Pow2(b - 1));
    }
  }

  lemma {:induction false} Pow2Monotone(a: nat, b: nat)
    requires a <= b
    ensures Pow2(a) <= Pow2(b)
    decreases b
  {
    if a < b {
      Pow2Monotone(a, b - 1);
    }
  }

  lemma Pow2Of12()
    ensures Pow2(12) == 4096
  {
    assert Pow2(3) == 8;
    Pow2Add(3, 3);
    Pow2Add(6, 6);
  }

  lemma Pow2Of30()
    ensures Pow2(30) == 0x4000_0000 && Pow2(31) == 0x8000_0000
  {
    Pow2Of12();
    Pow2Add(12, 12);
    Pow2Add(24, 6);
    assert Pow2(6) == 64;
  }

  lemma Pow2Of48()
    ensures Pow2(48) == 0x1_0000_0000_0000
  {
    Pow2Of12();
    Pow2Add(12, 12);
    Pow2Add(24, 24);
  }

  function Times(n: nat, d: nat): nat {
    if n == 0 then 0 else d + Times(n - 1, d)
  }

  function Quot(x: nat, d: nat): nat
    requires d > 0
  {
    if x < d then 0 else 1 + Quot(x - d, d)
  }

  function Rem(x: nat, d: nat): (r: nat)
    requires d > 0
    ensures r < d && r <= x
  {
    if x < d then x else Rem(x - d, d)
  }

  lemma {:induction false} TimesIsProduct(n: nat, d: nat)
    ensures Times(n, d) == n * d
  {
    if n > 0 {
      TimesIsProduct(n - 1, d);
    }
  }

  lemma {:induction false} TimesMonotone(a: nat, b: nat, d: nat)
    ensures a <= b ==> Times(a, d) <= Times(b, d)
  {
    if 0 < a <= b {
      TimesMonotone(a - 1, b - 1, d);
    }
  }

  lemma QuotBelow(x: nat, n: nat, d: nat)
    requires d > 0 && x < Times(n, d)
    ensures Quot(x, d) < n
  {
    QuotRem(x, d);
    TimesMonotone(n, Quot(x, d), d);
  }

  lemma {:induction false} QuotRem(x: nat, d: nat)
    requires d > 0
    ensures x == Times(Quot(x, d), d) + Rem(x, d)
  {
    if x >= d {
      QuotRem(x - d, d);
    }
  }

  /** Quotient and remainder are determined by the equation that defines them. */
  lemma {:induction false} QuotRemUnique(x: nat, d: nat, q: nat, r: nat)
    requires r < d && x == Times(q, d) + r
    ensures Quot(x, d) == q && Rem(x, d) == r
  {
    if q > 0 {
      QuotRemUnique(x - d, d, q - 1, r);
    }
  }

  lemma QuotRemIsDivision(x: nat, d: nat)
    requires d > 0
    ensures Quot(x, d) == x / d && Rem(x, d) == x % d
  {
    var q, r := x / d, x % d;
    assert x == q * d + r;
    TimesIsProduct(q, d);
    QuotRemUnique(x, d, q, r);
  }

  lemma {:induction false} RemOfMultiple(n: nat, d: nat, x: nat)
    requires d > 0
    ensures Rem(Times(n, d) + x, d) == Rem(x, d)
  {
    if n > 0 {
      RemOfMultiple(n - 1, d, x);
    }
  }

  /** Remainders modulo a multiple of `d` determine remainders modulo `d`. */
  lemma {:induction false} RemOfRem(x: nat, m: nat, d: nat)
    requires d > 0 && m > 0
    ensures Times(m, d) > 0 && Rem(x, d) == Rem(Rem(x, Times(m, d)), d)
    decreases x
  {
    var c := Times(m, d);
    if x >= c {
      RemOfRem(x - c, m, d);
      RemOfMultiple(m, d, x - c);
    }
  }

  lemma RemOfAligned(b: nat, d: nat, x: nat)
    requires d > 0 && Rem(b, d) == 0
    ensures Rem(b + x, d) == Rem(x, d)
  {
    QuotRem(b, d);
    RemOfMultiple(Quot(b, d), d, x);
  }

  lemma RemOfBase(x: nat, d: nat)
    requires d > 0
    ensures Rem(x - Rem(x, d), d) == 0
  {
    QuotRem(x, d);
    RemOfMultiple(Quot(x, d), d, 0);
  }

  /** The `b`-block around `x` lies in its `f * b`-block. */
  lemma BlocksNest(x: nat, f: nat, b: nat)
    requires f > 0 && b > 0
    ensures Times(f, b) > 0
    ensures x - Rem(x, Times(f, b)) <= x - Rem(x, b)
    ensures x - Rem(x, b) + b <= x - Rem(x, Times(f, b)) + Times(f, b)
  {
    RemOfRem(x, f, b);
    var off := Rem(x, Times(f, b));
    QuotRem(off, b);
    TimesMonotone(Quot(off, b) + 1, f, b);
    TimesMonotone(f, Quot(off, b), b);
  }

  lemma AlignedSum(a: nat, b: nat, d: nat)
    requires d > 0 && Rem(a, d) == 0 && Rem(b, d) == 0
    ensures Rem(a + b, d) == 0
    ensures b <= a ==> Rem(a - b, d) == 0
  {
    RemOfAligned(a, d, b);
    if b <= a {
      RemOfAligned(b, d, a - b);
    }
  }

  lemma MultipleIsAligned(n: nat, d: nat)
    requires d > 0
    ensures (n * d) % d == 0
  {
    TimesIsProduct(n, d);
    RemOfMultiple(n, d, 0);
    QuotRemIsDivision(n * d, d);
  }

  // ---- slots of a ring buffer ----

  /** Two positions less than `n` apart use different slots of a ring of `n`. */
  lemma {:induction false} SlotsDiffer(a: nat, b: nat, n: nat)
    requires n > 0 && a < b < a + n
    ensures Rem(a, n) != Rem(b, n)
  {
    if a >= n {
      SlotsDiffer(a - n, b - n, n);
    }
  }

  lemma NextSlot(a: nat, n: nat)
    requires n > 0
    ensures Rem(Rem(a, n) + 1, n) == Rem(a + 1, n)
  {
    QuotRem(a, n);
    RemOfMultiple(Quot(a, n), n, Rem(a, n) + 1);
  }

  lemma FullTurn(a: nat, n: nat)
    requires n > 0
    ensures Rem(a + n, n) == Rem(a, n)
  {
  }
}

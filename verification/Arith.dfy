/** Alignment arithmetic. The source writes `x & ~(a - 1)` for a power of two `a`; the rest of the
    project uses AlignDown, and MaskIsAlignDown shows that the two agree on every 64-bit word. */
module Arith {

  const PAGE: nat := 4096
  const WORD64: nat := 0x1_0000_0000_0000_0000

  function Pow2(k: nat): (p: nat)
    ensures p > 0
  {
    if k == 0 then 1 else 2 * Pow2(k - 1)
  }

  /** Bitwise `and` of two natural numbers, digit by digit. */
  function And(a: nat, b: nat): nat {
    if a == 0 || b == 0 then 0
    else 2 * And(a / 2, b / 2) + (if a % 2 == 1 && b % 2 == 1 then 1 else 0)
  }

  function AlignDown(a: nat, align: nat): nat
    requires align > 0
  {
    a - a % align
  }

  function AlignUp(a: nat, align: nat): nat
    requires align > 0
  {
    AlignDown(a + align - 1, align)
  }

  /** Unsigned 64-bit subtraction, as the source's `t - stamp` on uint64_t. */
  function Sub64(a: nat, b: nat): nat {
    (a - b) % WORD64
  }

  lemma {:induction false} ModHalf(a: nat, k: nat)
    ensures a % (2 * Pow2(k)) == 2 * ((a / 2) % Pow2(k)) + a % 2
  {
    var p := Pow2(k);
    var q, r := (a / 2) / p, (a / 2) % p;
    assert a == (2 * p) * q + (2 * r + a % 2);
    ModUnique(a, 2 * p, q, 2 * r + a % 2);
  }

  lemma MulStep(m: nat, d: int)
    requires d >= 1
    ensures m * d >= m
  {}

  lemma ModUnique(a: nat, m: nat, q: nat, r: nat)
    requires m > 0 && r < m && a == m * q + r
    ensures a % m == r && a / m == q
  {
    var d := a / m - q;
    assert m * d == r - a % m by {
      assert a == m * (a / m) + a % m;
    }
    if d >= 1 {
      MulStep(m, d);
    } else if d <= -1 {
      MulStep(m, -d);
    }
  }

  lemma AndDouble(a: nat, q: nat)
    ensures And(a, 2 * q) == 2 * And(a / 2, q)
  {
    assert 2 * q / 2 == q && 2 * q % 2 == 0;
  }

  lemma AlignDouble(a: nat, k: nat)
    ensures AlignDown(a, 2 * Pow2(k)) == 2 * AlignDown(a / 2, Pow2(k))
  {
    hide Pow2;
    ModHalf(a, k);
  }

  /** `a & ~(2^k - 1)` on w-bit words rounds `a` down to a multiple of 2^k. */
  lemma {:induction false} MaskIsAlignDown(a: nat, k: nat, w: nat)
    requires k <= w && a < Pow2(w)
    ensures Pow2(w) >= Pow2(k)
    ensures And(a, Pow2(w) - Pow2(k)) == AlignDown(a, Pow2(k))
  {
    hide *;
    PowMono(k, w);
    if k == 0 {
      MaskNothing(a, w);
    } else {
      PowDouble(k);
      PowDouble(w);
      PowMono(k - 1, w - 1);
      var q: nat := Pow2(w - 1) - Pow2(k - 1);
      MaskIsAlignDown(a / 2, k - 1, w - 1);
      AndDouble(a, q);
      AlignDouble(a, k - 1);
    }
  }

  lemma MaskNothing(a: nat, w: nat)
    requires a < Pow2(w)
    ensures Pow2(w) >= Pow2(0) && And(a, Pow2(w) - Pow2(0)) == AlignDown(a, Pow2(0))
  {
    AndAll(a, w);
  }

  lemma PowDouble(k: nat)
    requires k > 0
    ensures Pow2(k) == 2 * Pow2(k - 1)
  {}

  lemma {:induction false} AndAll(a: nat, w: nat)
    requires a < Pow2(w)
    ensures And(a, Pow2(w) - 1) == a
  {
    if w > 0 && a > 0 {
      AndAll(a / 2, w - 1);
      assert (Pow2(w) - 1) / 2 == Pow2(w - 1) - 1;
    }
  }

  lemma {:induction false} PowMono(k: nat, w: nat)
    requires k <= w
    ensures Pow2(k) <= Pow2(w)
  {
    if k < w {
      PowMono(k, w - 1);
    }
  }

  lemma AlignDownFacts(a: nat, align: nat)
    requires align > 0
    ensures AlignDown(a, align) % align == 0
    ensures AlignDown(a, align) <= a < AlignDown(a, align) + align
  {
    ModUnique(AlignDown(a, align), align, a / align, 0);
  }

  /** The only multiple of `align` in the `align` bytes up to `a` is AlignDown(a). */
  lemma AlignDownUnique(a: nat, base: nat, align: nat)
    requires align > 0 && base % align == 0 && base <= a < base + align
    ensures AlignDown(a, align) == base
  {
    ModUnique(a, align, base / align, a - base);
  }

  lemma AlignUpFacts(a: nat, align: nat)
    requires align > 0
    ensures AlignUp(a, align) % align == 0
    ensures a <= AlignUp(a, align) < a + align
  {
    AlignDownFacts(a + align - 1, align);
  }

  lemma MulMono(a: nat, b: nat, m: nat)
    requires a <= b
    ensures a * m <= b * m
  {}

  lemma DivFacts(a: nat, m: nat)
    requires m > 0
    ensures a / m * m <= a < (a / m + 1) * m
  {}

  lemma DivNonneg(a: nat, m: nat)
    requires m > 0
    ensures a / m >= 0
  {}

  function Quotient(a: nat, m: nat): nat
    requires m > 0
  {
    DivNonneg(a, m);
    a / m
  }

  /** A quotient is determined by the multiples around the dividend. */
  lemma DivUnique(a: nat, m: nat, q: nat)
    requires m > 0 && q * m <= a < (q + 1) * m
    ensures a / m == q
  {
    ModUnique(a, m, q, a - q * m);
  }
}

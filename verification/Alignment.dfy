/** Address rounding as `.align` does it: in 16 bits in one pass, in a C int in the other. */
module Alignment {
  import opened Words

  const INT_SPAN := 0x1_0000_0000

  type Int32 = x: int | -0x8000_0000 <= x < 0x8000_0000

  /** Two's complement wrap of an int expression. */
  function Wrap32(x: int): Int32 {
    (x + 0x8000_0000) % INT_SPAN - 0x8000_0000
  }

  /** `x & ~m` on two's complement numbers. */
  function AndNot(x: int, m: int): int
    decreases if x < 0 then -x else x
  {
    if x == 0 then 0
    else if x == -1 then -1 - m
    else 2 * AndNot(x / 2, m / 2) + (if x % 2 == 1 && m % 2 == 0 then 1 else 0)
  }

  /** The new address in the first pass: everything is cut to 16 bits. */
  function AlignAddress(addr: Addr, align: Int32): Addr {
    AndNot(Plus(addr, align - 1), Wrap32(align - 1)) % WORD_SPAN
  }

  /** The number of nops the second pass counts, in a C int. */
  function NopsToAdd(addr: Addr, align: Int32): int {
    AndNot(Wrap32(addr + align - 1), Wrap32(align - 1)) - addr
  }

  // ------------------------------------------------------ bits of AndNot

  lemma Unfold(x: int, m: int)
    ensures AndNot(x, m) == 2 * AndNot(x / 2, m / 2) + (if x % 2 == 1 && m % 2 == 0 then 1 else 0)
  {
  }

  lemma MulApart(p: int, t: int)
    requires p >= 1
    ensures t >= 1 ==> p * t >= p
    ensures t <= -1 ==> p * t <= -p
  {
  }

  lemma MultipleMod(p: int, q: int)
    requires p >= 1
    ensures (p * q) % p == 0
  {
    MulApart(p, q - p * q / p);
  }

  lemma HalfMod(d: int, p: int)
    requires p >= 1 && d % (2 * p) == 0
    ensures d % 2 == 0 && (d / 2) % p == 0
  {
    var q := d / (2 * p);
    assert d == 2 * (p * q);
    MultipleMod(p, q);
  }

  lemma DoubleMod(d: int, p: int)
    requires p >= 1 && d % p == 0
    ensures (2 * d) % (2 * p) == 0
  {
    var q := d / p;
    assert 2 * d == (2 * p) * q;
    MultipleMod(2 * p, q);
  }

  /** The low bits of the result come from the low bits of the operand. */
  lemma {:induction false} AndNotLow(x: int, y: int, m: int, k: nat)
    requires (x - y) % Pow2(k) == 0
    ensures (AndNot(x, m) - AndNot(y, m)) % Pow2(k) == 0
    decreases k
  {
    if k > 0 {
      HalfMod(x - y, Pow2(k - 1));
      assert x / 2 - y / 2 == (x - y) / 2;
      AndNotLow(x / 2, y / 2, m / 2, k - 1);
      Unfold(x, m);
      Unfold(y, m);
      DoubleMod(AndNot(x / 2, m / 2) - AndNot(y / 2, m / 2), Pow2(k - 1));
    }
  }

  /** Clearing the bits of a non-negative mask takes away at most the mask and adds nothing. */
  lemma {:induction false} AndNotBounds(x: nat, m: nat)
    ensures x - m <= AndNot(x, m) <= x && AndNot(x, m) >= 0
    decreases x
  {
    if x > 0 {
      AndNotBounds(x / 2, m / 2);
    }
  }

  /** Clearing all bits below a power of two leaves a multiple of it. */
  lemma {:induction false} AndNotPower(x: nat, k: nat)
    ensures AndNot(x, Pow2(k) - 1) % Pow2(k) == 0
    decreases k
  {
    if k > 0 {
      assert (Pow2(k) - 1) / 2 == Pow2(k - 1) - 1 && (Pow2(k) - 1) % 2 == 1;
      AndNotPower(x / 2, k - 1);
      Unfold(x, Pow2(k) - 1);
      DoubleMod(AndNot(x / 2, Pow2(k - 1) - 1), Pow2(k - 1));
    }
  }

  // ----------------------------------------------------- the two passes

  lemma Pow2Values()
    ensures Pow2(16) == WORD_SPAN && Pow2(30) == 0x4000_0000
  {
    assert Pow2(10) == 0x400;
    assert Pow2(20) == 0x10_0000;
  }

  lemma WrapKeepsLow(addr: Addr, d: int)
    ensures (Plus(addr, d) - Wrap32(addr + d)) % WORD_SPAN == 0
  {
  }

  lemma CongruentCut(a: int, b: int)
    requires (a - b) % WORD_SPAN == 0
    ensures a % WORD_SPAN == b % WORD_SPAN
  {
  }

  /** Both passes round to the same 16 bits. */
  lemma SameLowBits(addr: Addr, align: Int32)
    ensures AlignAddress(addr, align) == Plus(addr, NopsToAdd(addr, align))
  {
    var x, y, m := Plus(addr, align - 1), Wrap32(addr + (align - 1)), Wrap32(align - 1);
    WrapKeepsLow(addr, align - 1);
    Pow2Values();
    AndNotLow(x, y, m, 16);
    CongruentCut(AndNot(x, m), AndNot(y, m));
  }

  /** The second pass pads only when the count is positive, so that the passes agree exactly when
      that test loses nothing. */
  lemma PassesAlignAlike(addr: Addr, align: Int32)
    ensures AlignAddress(addr, align) == Plus(addr, if NopsToAdd(addr, align) > 0 then NopsToAdd(addr, align) else 0)
      <==> NopsToAdd(addr, align) >= 0 || NopsToAdd(addr, align) % WORD_SPAN == 0
  {
    SameLowBits(addr, align);
    TruncatedPlus(addr, NopsToAdd(addr, align), AlignAddress(addr, align));
  }

  lemma TruncatedPlus(addr: Addr, nops: int, next: Addr)
    requires next == Plus(addr, nops)
    ensures next == Plus(addr, if nops > 0 then nops else 0) <==> nops >= 0 || nops % WORD_SPAN == 0
  {
    PlusNeutral(addr, nops);
    PlusNeutral(addr, 0);
  }

  lemma PlusNeutral(addr: Addr, d: int)
    ensures Plus(addr, d) == addr <==> d % WORD_SPAN == 0
  {
  }

  lemma NopsValue(addr: Addr, align: Int32)
    requires 1 <= align <= 0x7FFF_0000
    ensures addr + NopsToAdd(addr, align) == AndNot(addr + (align - 1), align - 1)
  {
    assert Wrap32(addr + align - 1) == addr + (align - 1);
    assert Wrap32(align - 1) == align - 1;
  }

  /** A positive alignment, a power of two or not, never counts backwards. */
  lemma PositiveAlign(addr: Addr, align: Int32)
    requires 1 <= align <= 0x7FFF_0000
    ensures 0 <= NopsToAdd(addr, align) < align
  {
    NopsValue(addr, align);
    AndNotBounds(addr + (align - 1), align - 1);
  }

  /** Negative alignments are accepted, and then the passes can disagree. */
  lemma NegativeAlignDisagrees()
    ensures AlignAddress(3, -2) == 0 && NopsToAdd(3, -2) == -3
  {
  }

  lemma {:induction false} PowMonotone(a: nat, b: nat)
    requires a <= b
    ensures Pow2(a) <= Pow2(b)
  {
    if a < b {
      PowMonotone(a, b - 1);
    }
  }

  lemma SmallPower(k: nat)
    requires k <= 30
    ensures 1 <= Pow2(k) <= 0x4000_0000
  {
    PowMonotone(k, 30);
    Pow2Values();
  }

  /** After a power of two the address is a multiple of it, the first one not below. */
  lemma AlignsToPower(addr: Addr, k: nat, align: Int32)
    requires k <= 30 && align == Pow2(k)
    ensures 0 <= NopsToAdd(addr, align) < align && (addr + NopsToAdd(addr, align)) % align == 0
  {
    SmallPower(k);
    PositiveAlign(addr, align);
    NopsValue(addr, align);
    ClearsBelow(addr + (align - 1), k, align);
  }

  lemma ClearsBelow(x: nat, k: nat, p: int)
    requires p == Pow2(k)
    ensures AndNot(x, p - 1) % p == 0
  {
    AndNotPower(x, k);
  }
}

/** Addresses as the words that hold them. */
module WordBits {
  import opened Words

  predicate LowBit(b: bv16) {
    b & 1 == 1
  }

  function Rest(b: bv16): bv16 {
    b >> 1
  }

  function PushBit(b: bv16, bit: bool): bv16 {
    (b << 1) | (if bit then 1 else 0)
  }

  /** The number a word stands for. */
  function Number(b: bv16): nat
    decreases b
  {
    if b == 0 then 0 else (if LowBit(b) then 1 else 0) + 2 * Number(Rest(b))
  }

  /** The low 16 bits of a number. */
  function ToWord(n: nat): bv16 {
    if n == 0 then 0 else PushBit(ToWord(n / 2), n % 2 == 1)
  }

  predicate FitsIn(b: bv16, k: bv16)
    requires k <= 16
  {
    b >> k == 0
  }

  lemma PushFits(b: bv16, k: bv16, bit: bool)
    requires 1 <= k <= 16 && FitsIn(b, k - 1)
    ensures FitsIn(PushBit(b, bit), k)
    ensures Rest(PushBit(b, bit)) == b && LowBit(PushBit(b, bit)) == bit
  {
  }

  lemma RestFits(b: bv16, k: bv16)
    requires 1 <= k <= 16 && FitsIn(b, k)
    ensures FitsIn(Rest(b), k - 1)
  {
  }

  lemma NumberUnfold(b: bv16)
    ensures Number(b) == (if LowBit(b) then 1 else 0) + 2 * Number(Rest(b))
  {
  }

  lemma {:induction false} NumberBound(b: bv16, k: nat, w: bv16)
    requires k <= 16 && w as nat == k && FitsIn(b, w)
    ensures Number(b) < Pow2(k)
    decreases k
  {
    if k > 0 {
      RestFits(b, w);
      NumberBound(Rest(b), k - 1, w - 1);
      NumberUnfold(b);
    }
  }

  lemma {:induction false} WordRoundTrip(n: nat, k: nat, w: bv16)
    requires n < Pow2(k) && k <= 16 && w as nat == k
    ensures FitsIn(ToWord(n), w) && Number(ToWord(n)) == n
    decreases k
  {
    if k > 0 {
      WordRoundTrip(n / 2, k - 1, w - 1);
      PushFits(ToWord(n / 2), w, n % 2 == 1);
      NumberUnfold(PushBit(ToWord(n / 2), n % 2 == 1));
      assert n > 0 ==> ToWord(n) == PushBit(ToWord(n / 2), n % 2 == 1);
    }
  }

  lemma Pow16()
    ensures Pow2(16) == WORD_SPAN
  {
    assert Pow2(8) == 256;
  }

  /** The address a word stands for. */
  function ToAddr(b: bv16): Addr {
    Pow16();
    NumberBound(b, 16, 16);
    Number(b)
  }

  /** An address comes back from its word. */
  lemma AddrRoundTrip(a: Addr)
    ensures ToAddr(ToWord(a)) == a
  {
    Pow16();
    WordRoundTrip(a, 16, 16);
  }
}

/** The Gray-coded pointers of rtl/verilog/soc/async_fifo.v. */
module GrayCode {
  import opened Words

  predicate Odd(n: nat) {
    n % 2 == 1
  }

  function Bit(b: bool): nat {
    if b then 1 else 0
  }

  /** `(n >> 1) ^ n`, bit by bit. */
  function Gray(n: nat): nat {
    if n == 0 then 0 else 2 * Gray(n / 2) + Bit(Odd(n) != Odd(n / 2))
  }

  lemma GrayHalf(n: nat)
    ensures Gray(n) / 2 == Gray(n / 2) && Odd(Gray(n)) == (Odd(n) != Odd(n / 2))
  {
  }

  lemma SameHalves(a: nat, b: nat)
    requires a / 2 == b / 2 && Odd(a) == Odd(b)
    ensures a == b
  {
  }

  /** Different numbers have different codes. */
  lemma {:induction false} GrayInjective(a: nat, b: nat)
    requires Gray(a) == Gray(b)
    ensures a == b
    decreases a + b
  {
    if a + b > 0 {
      GrayHalf(a);
      GrayHalf(b);
      GrayInjective(a / 2, b / 2);
      SameHalves(a, b);
    }
  }

  lemma {:induction false} GrayBound(n: nat, k: nat)
    requires n < Pow2(k)
    ensures Gray(n) < Pow2(k)
    decreases k
  {
    if k > 0 && n > 0 {
      GrayBound(n / 2, k - 1);
    }
  }

  /** The number of bits in which two numbers differ. */
  function Differ(a: nat, b: nat): nat
    decreases a + b
  {
    if a == 0 && b == 0 then 0 else Bit(Odd(a) != Odd(b)) + Differ(a / 2, b / 2)
  }

  lemma {:induction false} DifferSelf(a: nat)
    ensures Differ(a, a) == 0
    decreases a
  {
    if a > 0 {
      DifferSelf(a / 2);
    }
  }

  lemma DifferUnfold(a: nat, b: nat)
    ensures Differ(a, b) == Bit(Odd(a) != Odd(b)) + Differ(a / 2, b / 2)
  {
  }

  lemma Successor(n: nat)
    ensures Odd(n + 1) != Odd(n)
    ensures (n + 1) / 2 == if Odd(n) then n / 2 + 1 else n / 2
  {
  }

  /** A pointer that advances changes one bit. */
  lemma {:induction false} GrayChangesOneBit(n: nat)
    ensures Differ(Gray(n), Gray(n + 1)) == 1
    decreases n
  {
    GrayHalf(n);
    GrayHalf(n + 1);
    Successor(n);
    DifferUnfold(Gray(n), Gray(n + 1));
    if Odd(n) {
      Successor(n / 2);
      GrayChangesOneBit(n / 2);
    } else {
      DifferSelf(Gray(n / 2));
    }
  }

  lemma {:induction false} GrayLast(k: nat)
    requires k >= 1
    ensures Gray(Pow2(k) - 1) == Pow2(k - 1)
  {
    if k > 1 {
      assert (Pow2(k) - 1) / 2 == Pow2(k - 1) - 1;
      GrayLast(k - 1);
    }
  }

  lemma {:induction false} DifferPower(k: nat)
    ensures Differ(Pow2(k), 0) == 1
  {
    if k > 0 {
      DifferPower(k - 1);
    }
  }

  /** So does one that wraps around. */
  lemma GrayWrapsOneBit(k: nat)
    requires k >= 1
    ensures Differ(Gray(Pow2(k) - 1), Gray(0)) == 1
  {
    GrayLast(k);
    DifferPower(k - 1);
  }

  /** The number without its low `k` bits. */
  function High(n: nat, k: nat): nat {
    if k == 0 then n else High(n / 2, k - 1)
  }

  /** The top bits of a code are the code of the top bits. */
  lemma {:induction false} GrayTop(n: nat, k: nat)
    ensures High(Gray(n), k) == Gray(High(n, k))
    decreases k
  {
    if k > 0 {
      GrayHalf(n);
      GrayTop(n / 2, k - 1);
    }
  }

  lemma TwiceProduct(p: nat, h: nat)
    ensures (2 * p) * h == 2 * (p * h)
  {
  }

  lemma {:induction false} HighBounds(n: nat, k: nat)
    ensures Pow2(k) * High(n, k) <= n < Pow2(k) * High(n, k) + Pow2(k)
    decreases k
  {
    if k > 0 {
      HighBounds(n / 2, k - 1);
      TwiceProduct(Pow2(k - 1), High(n / 2, k - 1));
      FromHalf(n, Pow2(k - 1) * High(n / 2, k - 1), Pow2(k - 1));
    }
  }

  lemma FromHalf(n: nat, x: nat, p: nat)
    requires x <= n / 2 < x + p
    ensures 2 * x <= n < 2 * x + 2 * p
  {
  }
}

/** The pointer adder of rtl/verilog/lsu.v: circular and reverse-carry addressing. */
module PtrAdder {
  import opened Words

  /** Bits, least significant first. */
  type Bits = seq<bool>

  function Value(b: Bits): nat {
    if b == [] then 0 else (if b[0] then 1 else 0) + 2 * Value(b[1..])
  }

  /** The low `w` bits of a number. */
  function LowBits(n: nat, w: nat): (b: Bits)
    ensures |b| == w
  {
    if w == 0 then [] else [n % 2 == 1] + LowBits(n / 2, w - 1)
  }

  function Reversed(b: Bits): (r: Bits)
    ensures |r| == |b|
    ensures forall i :: 0 <= i < |b| ==> r[i] == b[|b| - 1 - i]
  {
    seq(|b|, i requires 0 <= i < |b| => b[|b| - 1 - i])
  }

  /** Addition in the width of the operands. */
  function Sum(a: Bits, b: Bits): (r: Bits)
    ensures |r| == |a|
  {
    LowBits(Value(a) + Value(b), |a|)
  }

  /** Where the mask is set the sum, elsewhere the pointer. */
  function Masked(mask: Bits, sum: Bits, ptr: Bits): (r: Bits)
    requires |mask| == |sum| == |ptr|
    ensures |r| == |ptr|
  {
    seq(|ptr|, i requires 0 <= i < |ptr| => if mask[i] then sum[i] else ptr[i])
  }

  function Update(ptr: Bits, modifier: Bits, mask: Bits, bitrev: bool): (r: Bits)
    requires |ptr| == |modifier| == |mask|
    ensures |r| == |ptr|
  {
    if bitrev then Reversed(Masked(mask, Sum(Reversed(ptr), modifier), Reversed(ptr)))
    else Masked(mask, Sum(ptr, modifier), ptr)
  }

  method Reverse(b: Bits) returns (r: Bits)
    ensures r == Reversed(b)
  {
    r := [];
    for i := 0 to |b|
      invariant |r| == i && forall j :: 0 <= j < i ==> r[j] == b[|b| - 1 - j]
    {
      r := r + [b[|b| - 1 - i]];
    }
  }

  method Select(ptr: Bits, sum: Bits, mask: Bits, bitrev: bool) returns (r: Bits)
    requires |ptr| == |sum| == |mask|
    ensures r == if bitrev then Reversed(Masked(mask, sum, Reversed(ptr))) else Masked(mask, sum, ptr)
  {
    r := [];
    for i := 0 to |ptr|
      invariant |r| == i
      invariant forall j :: 0 <= j < i ==>
        var k := if bitrev then |ptr| - 1 - j else j;
        r[j] == if mask[k] then sum[k] else ptr[j]
    {
      var k := if bitrev then |ptr| - 1 - i else i;
      r := r + [if mask[k] then sum[k] else ptr[i]];
    }
  }

  /** The adder as it is written, loop by loop. */
  method Adder(ptr: Bits, modifier: Bits, mask: Bits, bitrev: bool) returns (out: Bits)
    requires |ptr| == |modifier| == |mask|
    ensures out == Update(ptr, modifier, mask, bitrev)
  {
    var rev := Reverse(ptr);
    var sum := if bitrev then Sum(rev, modifier) else Sum(ptr, modifier);
    out := Select(ptr, sum, mask, bitrev);
  }

  /** `n` updates in a row. */
  function After(n: nat, ptr: Bits, modifier: Bits, mask: Bits, bitrev: bool): (r: Bits)
    requires |ptr| == |modifier| == |mask|
    ensures |r| == |ptr|
  {
    if n == 0 then ptr else Update(After(n - 1, ptr, modifier, mask, bitrev), modifier, mask, bitrev)
  }

  lemma AfterNext(n: nat, ptr: Bits, modifier: Bits, mask: Bits, bitrev: bool)
    requires |ptr| == |modifier| == |mask| && n > 0
    ensures After(n, ptr, modifier, mask, bitrev)
      == Update(After(n - 1, ptr, modifier, mask, bitrev), modifier, mask, bitrev)
  {
  }

  // ------------------------------------------------------- bits and values

  lemma {:induction false} ValueOfLow(n: nat, w: nat) returns (q: nat)
    ensures n == Value(LowBits(n, w)) + Pow2(w) * q
  {
    if w == 0 {
      q := n;
    } else {
      q := ValueOfLow(n / 2, w - 1);
      assert LowBits(n, w)[1..] == LowBits(n / 2, w - 1);
      assert Pow2(w) * q == 2 * (Pow2(w - 1) * q);
    }
  }

  /** Multiples of 2^w are beyond the low `w` bits. */
  lemma {:induction false} LowOfMultiple(n: nat, w: nat, q: nat)
    ensures LowBits(n + Pow2(w) * q, w) == LowBits(n, w)
  {
    if w > 0 {
      var d := Pow2(w - 1) * q;
      assert Pow2(w) * q == 2 * d;
      assert (n + 2 * d) / 2 == n / 2 + d && (n + 2 * d) % 2 == n % 2;
      LowOfMultiple(n / 2, w - 1, q);
    }
  }

  lemma {:induction false} LowOfValue(b: Bits)
    ensures LowBits(Value(b), |b|) == b
  {
    if b != [] {
      LowOfValue(b[1..]);
      assert b == [b[0]] + b[1..];
    }
  }

  lemma {:induction false} LowPrefix(n: nat, k: nat, w: nat)
    requires k <= w
    ensures LowBits(n, w)[..k] == LowBits(n, k)
  {
    if k > 0 {
      LowPrefix(n / 2, k - 1, w - 1);
      assert LowBits(n, w)[..k] == [n % 2 == 1] + LowBits(n / 2, w - 1)[..k - 1];
    }
  }

  lemma {:induction false} ValueAppend(a: Bits, b: Bits)
    ensures Value(a + b) == Value(a) + Pow2(|a|) * Value(b)
  {
    if a == [] {
      assert a + b == b;
    } else {
      ValueAppend(a[1..], b);
      assert (a + b)[1..] == a[1..] + b;
      assert Pow2(|a|) * Value(b) == 2 * (Pow2(|a| - 1) * Value(b));
    }
  }

  lemma {:induction false} LowAppend(lo: nat, hi: nat, k: nat, w: nat)
    requires lo < Pow2(k)
    ensures LowBits(lo + Pow2(k) * hi, k + w) == LowBits(lo, k) + LowBits(hi, w)
  {
    if k > 0 {
      var d := Pow2(k - 1) * hi;
      assert Pow2(k) * hi == 2 * d;
      assert (lo + 2 * d) / 2 == lo / 2 + d && (lo + 2 * d) % 2 == lo % 2;
      LowAppend(lo / 2, hi, k - 1, w);
    }
  }

  lemma {:induction false} ValueBound(b: Bits)
    ensures Value(b) < Pow2(|b|)
  {
    if b != [] {
      ValueBound(b[1..]);
    }
  }

  /** Adding below 2^w sees only the low `w` bits. */
  lemma AddLow(n: nat, m: nat, w: nat)
    ensures LowBits(Value(LowBits(n, w)) + m, w) == LowBits(n + m, w)
  {
    var q := ValueOfLow(n, w);
    LowOfMultiple(Value(LowBits(n, w)) + m, w, q);
  }

  // -------------------------------------------------- circular addressing

  function Ones(n: nat): (b: Bits)
    ensures |b| == n && forall i :: 0 <= i < n ==> b[i]
  {
    seq(n, _ => true)
  }

  function Zeros(n: nat): (b: Bits)
    ensures |b| == n && forall i :: 0 <= i < n ==> !b[i]
  {
    seq(n, _ => false)
  }

  /** A mask of the low `k` bits out of `w`. */
  function LowMask(k: nat, w: nat): (b: Bits)
    requires k <= w
    ensures |b| == w
  {
    Ones(k) + Zeros(w - k)
  }

  lemma MaskedLow(k: nat, sum: Bits, ptr: Bits)
    requires k <= |ptr| == |sum|
    ensures Masked(LowMask(k, |ptr|), sum, ptr) == sum[..k] + ptr[k..]
  {
  }

  lemma {:induction false} CircularStep(ptr: Bits, modifier: Bits, k: nat)
    requires k <= |ptr| == |modifier|
    ensures Update(ptr, modifier, LowMask(k, |ptr|), false)
      == LowBits(Value(ptr[..k]) + Value(modifier), k) + ptr[k..]
  {
    var w, n := |ptr|, Value(ptr) + Value(modifier);
    MaskedLow(k, Sum(ptr, modifier), ptr);
    LowPrefix(n, k, w);
    ValueAppend(ptr[..k], ptr[k..]);
    assert ptr == ptr[..k] + ptr[k..];
    LowOfMultiple(Value(ptr[..k]) + Value(modifier), k, Value(ptr[k..]));
  }

  /** One more step of a pointer that has counted up to `low`. */
  lemma CircularNext(before: Bits, high: Bits, low: nat, modifier: Bits, k: nat, mask: Bits)
    requires before == LowBits(low, k) + high && |before| == |modifier| && mask == LowMask(k, |before|)
    ensures Update(before, modifier, mask, false) == LowBits(low + Value(modifier), k) + high
  {
    assert before[..k] == LowBits(low, k) && before[k..] == high;
    CircularStep(before, modifier, k);
    AddLow(low, Value(modifier), k);
  }

  /** Circular addressing: the bits above the mask never change, those below count in steps of the
      modifier. */
  lemma {:induction false} CircularRun(ptr: Bits, modifier: Bits, k: nat, n: nat, mask: Bits)
    requires k <= |ptr| == |modifier| && mask == LowMask(k, |ptr|)
    ensures After(n, ptr, modifier, mask, false) == LowBits(Value(ptr[..k]) + n * Value(modifier), k) + ptr[k..]
  {
    if n == 0 {
      LowOfValue(ptr[..k]);
      assert ptr == ptr[..k] + ptr[k..];
    } else {
      CircularRun(ptr, modifier, k, n - 1, mask);
      AfterNext(n, ptr, modifier, mask, false);
      CircularNext(After(n - 1, ptr, modifier, mask, false), ptr[k..],
                   Value(ptr[..k]) + (n - 1) * Value(modifier), modifier, k, mask);
      Distribute(n, -1, Value(modifier));
    }
  }

  lemma Distribute(a: int, b: int, c: int)
    ensures (a + b) * c == a * c + b * c && c * (a + b) == c * a + c * b
  {
  }

  /** An odd modifier does not come back before 2^k updates. */
  lemma {:induction false} OddKeepsApart(m: nat, d: nat, k: nat, q: int)
    requires m % 2 == 1 && 0 < d < Pow2(k)
    ensures m * d != Pow2(k) * q
    decreases k
  {
    if m * d == Pow2(k) * q {
      var e, p := d / 2, Pow2(k - 1) * q;
      assert Pow2(k) * q == 2 * p;
      OddProduct(m, d);
      assert d == 2 * e;
      assert m * d == 2 * (m * e);
      OddKeepsApart(m, e, k - 1, q);
    }
  }

  lemma OddProduct(m: nat, d: nat)
    requires m % 2 == 1
    ensures (m * d) % 2 == d % 2
  {
    var h := m / 2;
    assert m * d == 2 * (h * d) + d;
  }

  lemma Double(p: int, h: int)
    ensures (2 * p) * h == p * (2 * h)
  {
  }

  lemma ReachesOn(m: nat, t: int, p: nat, n: nat, q: int, h: int)
    requires n * m == t + p * q
    ensures q == 2 * h ==> n * m == t + (2 * p) * h
    ensures q + m == 2 * h ==> (n + p) * m == t + (2 * p) * h
  {
    Double(p, h);
    Distribute(n, p, m);
    Distribute(q, m, p);
  }

  /** Every residue is reached. */
  lemma {:induction false} OddReaches(m: nat, t: int, k: nat) returns (n: nat, q: int)
    requires m % 2 == 1
    ensures n < Pow2(k) && n * m == t + Pow2(k) * q
  {
    if k == 0 {
      n, q := 0, -t;
    } else {
      n, q := OddReaches(m, t, k - 1);
      var h := if q % 2 == 0 then q / 2 else (q + m) / 2;
      ReachesOn(m, t, Pow2(k - 1), n, q, h);
      n, q := if q % 2 == 0 then n else n + Pow2(k - 1), h;
    }
  }

  lemma SameLowApart(a: nat, b: nat, k: nat) returns (q: int)
    requires LowBits(a, k) == LowBits(b, k)
    ensures a - b == Pow2(k) * q
  {
    var x: int := ValueOfLow(a, k);
    var y: int := ValueOfLow(b, k);
    q := x - y;
    Distribute(x, -y, Pow2(k));
  }

  lemma Difference(i: int, j: int, m: int)
    ensures j * m - i * m == m * (j - i)
  {
  }

  lemma OddStepsApart(base: nat, m: nat, i: nat, j: nat, k: nat)
    requires m % 2 == 1 && i < j < Pow2(k)
    ensures LowBits(base + i * m, k) != LowBits(base + j * m, k)
  {
    var a, b := base + i * m, base + j * m;
    Difference(i, j, m);
    if LowBits(a, k) == LowBits(b, k) {
      var q := SameLowApart(b, a, k);
      OddKeepsApart(m, j - i, k, q);
    }
  }

  /** A negative multiple cancels just as well. */
  lemma LowOfCongruent(a: nat, t: nat, k: nat, q: int)
    requires a == t + Pow2(k) * q
    ensures LowBits(a, k) == LowBits(t, k)
  {
    if q >= 0 {
      LowOfMultiple(t, k, q);
    } else {
      Distribute(q, -q, Pow2(k));
      LowOfMultiple(a, k, -q);
    }
  }

  /** With an odd modifier 2^k updates visit every address of the aligned block exactly once: no two
      of them agree, and each address is one of them. */
  lemma CircularVisitsOnce(ptr: Bits, modifier: Bits, k: nat, i: nat, j: nat, mask: Bits)
    requires k <= |ptr| == |modifier| && Value(modifier) % 2 == 1 && i < j < Pow2(k) && mask == LowMask(k, |ptr|)
    ensures After(i, ptr, modifier, mask, false)[k..] == ptr[k..] == After(j, ptr, modifier, mask, false)[k..]
    ensures After(i, ptr, modifier, mask, false)[..k] != After(j, ptr, modifier, mask, false)[..k]
  {
    CircularRun(ptr, modifier, k, i, mask);
    CircularRun(ptr, modifier, k, j, mask);
    OddStepsApart(Value(ptr[..k]), Value(modifier), i, j, k);
  }

  lemma CircularVisitsAll(ptr: Bits, modifier: Bits, k: nat, target: Bits, mask: Bits) returns (n: nat)
    requires k <= |ptr| == |modifier| && Value(modifier) % 2 == 1 && |target| == k && mask == LowMask(k, |ptr|)
    ensures n < Pow2(k) && After(n, ptr, modifier, mask, false) == target + ptr[k..]
  {
    var m, base, t := Value(modifier), Value(ptr[..k]), Value(target);
    var q;
    n, q := OddReaches(m, t - base, k);
    CircularRun(ptr, modifier, k, n, mask);
    LowOfValue(target);
    LowOfCongruent(base + n * m, t, k, q);
  }

  // ----------------------------------------------- reverse-carry addressing

  /** A mask of the high `k` bits out of `w`, and the number with just the lowest of them. */
  function HighMask(k: nat, w: nat): (b: Bits)
    requires k <= w
    ensures |b| == w
  {
    Zeros(w - k) + Ones(k)
  }

  /** 2^(w-k), or the whole carry out when k is 0. */
  predicate IsStep(modifier: Bits, k: nat) {
    0 < k <= |modifier| && Value(modifier) == Pow2(|modifier| - k)
  }

  lemma MaskedHigh(k: nat, sum: Bits, ptr: Bits)
    requires k <= |ptr| == |sum|
    ensures Masked(HighMask(k, |ptr|), sum, ptr) == ptr[..|ptr| - k] + sum[|ptr| - k..]
  {
  }

  /** Seen from the other end, an update counts up the field of the high `k` bits. */
  lemma CountsUp(low: Bits, n: nat, modifier: Bits, k: nat)
    requires IsStep(modifier, k) && |low| + k == |modifier|
    ensures Masked(HighMask(k, |modifier|), Sum(low + LowBits(n, k), modifier), low + LowBits(n, k))
      == low + LowBits(n + 1, k)
  {
    var j, v := |low|, Value(LowBits(n, k));
    var r := low + LowBits(n, k);
    ValueAppend(low, LowBits(n, k));
    ValueBound(low);
    Distribute(v, 1, Pow2(j));
    assert Value(r) + Value(modifier) == Value(low) + Pow2(j) * (v + 1);
    LowAppend(Value(low), v + 1, j, k);
    LowOfValue(low);
    AddLow(n, 1, k);
    assert Sum(r, modifier) == low + LowBits(n + 1, k);
    MaskedHigh(k, Sum(r, modifier), r);
    assert r[..j] == low && (low + LowBits(n + 1, k))[j..] == LowBits(n + 1, k);
  }

  lemma ReversedAppend(a: Bits, b: Bits)
    ensures Reversed(a + b) == Reversed(b) + Reversed(a)
  {
  }

  lemma ReversedTwice(a: Bits)
    ensures Reversed(Reversed(a)) == a
  {
  }

  /** Reverse-carry addressing: from a base aligned to 2^k, the n-th address is the base plus the
      k-bit reversal of n modulo 2^k. */
  lemma {:induction false} ReverseCarryRun(base: Bits, modifier: Bits, k: nat, n: nat, mask: Bits)
    requires IsStep(modifier, k) && |base| + k == |modifier| && mask == HighMask(k, |modifier|)
    ensures After(n, Zeros(k) + base, modifier, mask, true) == Reversed(LowBits(n, k)) + base
  {
    if n == 0 {
      ZeroBits(k);
      assert Reversed(Zeros(k)) == Zeros(k);
    } else {
      ReverseCarryRun(base, modifier, k, n - 1, mask);
      AfterNext(n, Zeros(k) + base, modifier, mask, true);
      ReverseCarryNext(base, modifier, k, n - 1);
    }
  }

  lemma ReverseCarryNext(base: Bits, modifier: Bits, k: nat, n: nat)
    requires IsStep(modifier, k) && |base| + k == |modifier|
    ensures Update(Reversed(LowBits(n, k)) + base, modifier, HighMask(k, |modifier|), true)
      == Reversed(LowBits(n + 1, k)) + base
  {
    var low := Reversed(base);
    ReversedAppend(Reversed(LowBits(n, k)), base);
    ReversedTwice(LowBits(n, k));
    CountsUp(low, n, modifier, k);
    ReversedAppend(low, LowBits(n + 1, k));
    ReversedTwice(base);
  }

  lemma {:induction false} ZeroBits(k: nat)
    ensures LowBits(0, k) == Zeros(k) && Value(Zeros(k)) == 0
  {
    if k > 0 {
      ZeroBits(k - 1);
      assert Zeros(k) == [false] + Zeros(k - 1);
      assert Zeros(k)[1..] == Zeros(k - 1);
    }
  }

  /** The same as numbers. */
  lemma ReverseCarryValues(base: Bits, modifier: Bits, k: nat, n: nat, mask: Bits)
    requires IsStep(modifier, k) && |base| + k == |modifier| && mask == HighMask(k, |modifier|)
    ensures Value(After(n, Zeros(k) + base, modifier, mask, true))
      == Value(Zeros(k) + base) + Value(Reversed(LowBits(n, k)))
  {
    ReverseCarryRun(base, modifier, k, n, mask);
    ValueAppend(Reversed(LowBits(n, k)), base);
    ValueAppend(Zeros(k), base);
    ZeroBits(k);
  }
}

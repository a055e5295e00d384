/** Saturating addition, the two multipliers and multiply-accumulate, of rtl/verilog/int_addsub.v,
    rtl/verilog/int_mul.v and rtl/verilog/cu.v. */
module Mac {

  const SPAN16 := 0x1_0000
  const SPAN18 := 0x4_0000
  const SPAN32 := 0x1_0000_0000
  const SPAN36 := 0x10_0000_0000
  const SPAN40 := 0x100_0000_0000
  const SPAN41 := 0x200_0000_0000

  type Word = x: int | 0 <= x < SPAN16
  type Long = x: int | 0 <= x < SPAN32
  type Acc = x: int | 0 <= x < SPAN40

  /** Two's complement in a register of `span` values. */
  function Signed(x: int, span: int): int {
    if x >= span / 2 then x - span else x
  }

  // ---------------------------------------------------- addition, subtraction

  const MAX_POS: Acc := SPAN40 / 2 - 1
  const MAX_NEG: Acc := SPAN40 / 2

  /** The 41-bit sum or difference, and the saturation that looks at its two top bits. */
  function AddSub(a: Acc, b: Acc, sub: bool, sat: bool): Acc {
    var wideA, wideB := Signed(a, SPAN40) % SPAN41, Signed(b, SPAN40) % SPAN41;
    Saturated((if sub then wideA - wideB else wideA + wideB) % SPAN41, sat)
  }

  function Saturated(sum: int, sat: bool): Acc
    requires 0 <= sum < SPAN41
  {
    var top := sum / (SPAN40 / 2);
    if !sat || top == 0 || top == 3 then sum % SPAN40
    else if top >= 2 then MAX_NEG
    else MAX_POS
  }

  function Clamp(x: int): int {
    if x < -SPAN40 / 2 then -SPAN40 / 2 else if x >= SPAN40 / 2 then SPAN40 / 2 - 1 else x
  }

  function Exact(a: Acc, b: Acc, sub: bool): int {
    if sub then Signed(a, SPAN40) - Signed(b, SPAN40) else Signed(a, SPAN40) + Signed(b, SPAN40)
  }

  lemma WideSum(a: Acc, b: Acc, sub: bool)
    ensures var wideA, wideB := Signed(a, SPAN40) % SPAN41, Signed(b, SPAN40) % SPAN41;
      (if sub then wideA - wideB else wideA + wideB) % SPAN41 == Exact(a, b, sub) % SPAN41
  {
    var x, y := Signed(a, SPAN40), Signed(b, SPAN40);
    WideValue(x);
    WideValue(y);
    Wraps41(x, y, x % SPAN41, y % SPAN41);
  }

  lemma Wraps41(x: int, y: int, x': int, y': int)
    requires (x' == x || x' == x + SPAN41) && (y' == y || y' == y + SPAN41)
    ensures (x' + y') % SPAN41 == (x + y) % SPAN41 && (x' - y') % SPAN41 == (x - y) % SPAN41
  {
  }

  /** With saturation the result is the exact signed result clamped to 40 bits. */
  lemma SaturatesExactly(a: Acc, b: Acc, sub: bool)
    ensures Signed(AddSub(a, b, sub, true), SPAN40) == Clamp(Exact(a, b, sub))
  {
    WideSum(a, b, sub);
    SaturatedValue(Exact(a, b, sub));
  }

  lemma WideValue(x: int)
    requires -SPAN40 <= x < SPAN40
    ensures x % SPAN41 == if x < 0 then x + SPAN41 else x
  {
  }

  lemma TopBits(sum: int)
    requires 0 <= sum < SPAN41
    ensures sum / (SPAN40 / 2)
      == if sum < SPAN40 / 2 then 0 else if sum < SPAN40 then 1 else if sum < SPAN41 - SPAN40 / 2 then 2 else 3
  {
  }

  lemma Cut40(sum: int)
    requires 0 <= sum < SPAN41
    ensures sum % SPAN40 == if sum < SPAN40 then sum else sum - SPAN40
  {
  }

  lemma SaturatedPlain(sum: int)
    requires 0 <= sum < SPAN41
    ensures sum < SPAN40 / 2 ==> Saturated(sum, true) == sum
    ensures sum >= SPAN41 - SPAN40 / 2 ==> Saturated(sum, true) == sum - SPAN40
  {
    TopBits(sum);
    Cut40(sum);
  }

  lemma SaturatedLimit(sum: int)
    requires 0 <= sum < SPAN41
    ensures SPAN40 / 2 <= sum < SPAN40 ==> Saturated(sum, true) == MAX_POS
    ensures SPAN40 <= sum < SPAN41 - SPAN40 / 2 ==> Saturated(sum, true) == MAX_NEG
  {
    TopBits(sum);
  }

  lemma SaturatedValue(x: int)
    requires -SPAN40 <= x < SPAN40
    ensures Signed(Saturated(x % SPAN41, true), SPAN40) == Clamp(x)
  {
    WideValue(x);
    SaturatedPlain(x % SPAN41);
    SaturatedLimit(x % SPAN41);
  }

  /** Without saturation it wraps around. */
  lemma WrapsExactly(a: Acc, b: Acc, sub: bool)
    ensures AddSub(a, b, sub, false) == (if sub then a - b else a + b) % SPAN40
  {
    WideSum(a, b, sub);
    WrapTwice(Exact(a, b, sub), if sub then a - b else a + b);
  }

  lemma WrapTwice(x: int, y: int)
    requires (x - y) % SPAN40 == 0
    ensures x % SPAN41 % SPAN40 == y % SPAN40
  {
  }

  // ------------------------------------------------------------ multiplication

  /** The number an operand stands for. */
  function ValueOf(a: Word, signed: bool): int {
    if signed then Signed(a, SPAN16) else a
  }

  /** An operand with its top bit, or zeros, copied in front. */
  function Extended(a: Word, signed: bool, span: int): int {
    if signed && a >= SPAN16 / 2 then a + (span - SPAN16) else a
  }

  /** The operands extended to 32 bits, and 32 bits of the product. */
  function Multiply32(a: Word, b: Word, signedA: bool, signedB: bool): Long {
    Extended(a, signedA, SPAN32) * Extended(b, signedB, SPAN32) % SPAN32
  }

  /** The operands extended to 18 bits, a signed 18 by 18 multiplier, and the low 32 bits of its 36. */
  function Multiply18(a: Word, b: Word, signedA: bool, signedB: bool): Long {
    Signed(Extended(a, signedA, SPAN18), SPAN18) * Signed(Extended(b, signedB, SPAN18), SPAN18) % SPAN36 % SPAN32
  }

  lemma ExtendedValue(a: Word, signed: bool)
    ensures var x := ValueOf(a, signed);
      && Extended(a, signed, SPAN32) == x + SPAN32 * (if x < 0 then 1 else 0)
      && Signed(Extended(a, signed, SPAN18), SPAN18) == x
  {
  }

  /** A number in two's complement is the one of its range that is the same modulo the span. */
  lemma SignedIs(x: int, span: int)
    requires span > 0 && span % 2 == 0 && 0 <= x < span
    ensures -span / 2 <= Signed(x, span) < span / 2 && (Signed(x, span) == x || Signed(x, span) == x - span)
  {
  }

  lemma {:induction false} MulMod(x: int, y: int, dx: int, dy: int)
    ensures ((x + SPAN32 * dx) * (y + SPAN32 * dy)) % SPAN32 == (x * y) % SPAN32
  {
    var t := x * dy + dx * y + SPAN32 * (dx * dy);
    assert (x + SPAN32 * dx) * (y + SPAN32 * dy) == x * y + SPAN32 * t by {
      Expand(x, y, dx, dy, SPAN32);
    }
    AddMultiple(x * y, t);
  }

  lemma Expand(x: int, y: int, dx: int, dy: int, m: int)
    ensures (x + m * dx) * (y + m * dy) == x * y + m * (x * dy + dx * y + m * (dx * dy))
  {
  }

  lemma AddMultiple(x: int, t: int)
    ensures (x + SPAN32 * t) % SPAN32 == x % SPAN32
  {
  }

  /** Both forms give the exact product of the operands' values modulo 2^32, for every choice of
      signs, and so agree. */
  lemma MultipliersAgree(a: Word, b: Word, signedA: bool, signedB: bool)
    ensures Multiply32(a, b, signedA, signedB) == ValueOf(a, signedA) * ValueOf(b, signedB) % SPAN32
    ensures Multiply18(a, b, signedA, signedB) == ValueOf(a, signedA) * ValueOf(b, signedB) % SPAN32
  {
    var x, y := ValueOf(a, signedA), ValueOf(b, signedB);
    MulMod(x, y, if x < 0 then 1 else 0, if y < 0 then 1 else 0);
    ExtendedValue(a, signedA);
    ExtendedValue(b, signedB);
    ModMod(x * y);
  }

  lemma ModMod(x: int)
    ensures x % SPAN36 % SPAN32 == x % SPAN32
  {
  }

  // ------------------------------------------------------ multiply-accumulate

  datatype Operands = Operands(a: Word, b: Word, signedA: bool, signedB: bool) {
    function Product(): int {
      ValueOf(a, signedA) * ValueOf(b, signedB)
    }
  }

  /** mac16: the 32-bit product enters the 40-bit adder without sign extension. */
  function MultiplyAdd(acc: Acc, p: Operands, sat: bool): Acc {
    AddSub(acc, Multiply32(p.a, p.b, p.signedA, p.signedB), false, sat)
  }

  function Accumulated(acc: Acc, ps: seq<Operands>, sat: bool): Acc {
    if ps == [] then acc else MultiplyAdd(Accumulated(acc, ps[..|ps| - 1], sat), ps[|ps| - 1], sat)
  }

  function Total(ps: seq<Operands>): int {
    if ps == [] then 0 else Total(ps[..|ps| - 1]) + ps[|ps| - 1].Product()
  }

  /** How many of the products are negative. */
  function Negatives(ps: seq<Operands>): nat {
    if ps == [] then 0 else Negatives(ps[..|ps| - 1]) + (if ps[|ps| - 1].Product() < 0 then 1 else 0)
  }

  lemma AddsModulo(x: int, y: int)
    ensures (x % SPAN40 + y) % SPAN40 == (x + y) % SPAN40
  {
  }

  lemma ProductModulo(p: int)
    requires -SPAN32 < p < SPAN32
    ensures p % SPAN32 == if p < 0 then p + SPAN32 else p
  {
  }

  lemma SumStep(acc: int, p: int, sum: int, n: nat)
    requires -SPAN32 < p < SPAN32 && acc == (sum + SPAN32 * n) % SPAN40
    ensures (acc + p % SPAN32) % SPAN40 == (sum + p + SPAN32 * (if p < 0 then n + 1 else n)) % SPAN40
  {
    ProductModulo(p);
    AddsModulo(sum + SPAN32 * n, p % SPAN32);
  }

  /** Every negative product of an unsaturated sum adds 2^32 too much, and nothing else goes wrong. */
  lemma {:induction false} WholeSum(acc: Acc, ps: seq<Operands>)
    ensures Accumulated(acc, ps, false) == (acc + Total(ps) + SPAN32 * Negatives(ps)) % SPAN40
  {
    if ps != [] {
      var init, p := ps[..|ps| - 1], ps[|ps| - 1];
      var before := Accumulated(acc, init, false);
      WholeSum(acc, init);
      MultipliersAgree(p.a, p.b, p.signedA, p.signedB);
      WrapsExactly(before, Multiply32(p.a, p.b, p.signedA, p.signedB), false);
      WordProduct(ValueOf(p.a, p.signedA), ValueOf(p.b, p.signedB));
      SumStep(before, p.Product(), acc + Total(init), Negatives(init));
    }
  }

  lemma LowOfSum(x: int, sum: int, n: nat)
    requires x == (sum + SPAN32 * n) % SPAN40
    ensures x % SPAN32 == sum % SPAN32
  {
    var q := (sum + SPAN32 * n) / SPAN40;
    assert x == sum + SPAN32 * (n - 256 * q);
  }

  lemma ShortOfTurn(sum: int, d: int)
    requires 0 <= d < SPAN40
    ensures (sum + d) % SPAN40 == sum % SPAN40 <==> d == 0
  {
  }

  lemma WholeTurns(sum: int, n: nat)
    ensures (sum + SPAN32 * n) % SPAN40 == (sum + SPAN32 * (n % 256)) % SPAN40
  {
    assert n == 256 * (n / 256) + n % 256;
    assert SPAN32 * n == SPAN40 * (n / 256) + SPAN32 * (n % 256);
  }

  lemma ExactSum(x: int, sum: int, n: nat)
    requires x == (sum + SPAN32 * n) % SPAN40
    ensures x == sum % SPAN40 <==> n % 256 == 0
  {
    WholeTurns(sum, n);
    ShortOfTurn(sum, SPAN32 * (n % 256));
  }

  /** Any number of unsaturated steps leaves the sum of the products in the low 32 bits. */
  lemma LowBitsExact(acc: Acc, ps: seq<Operands>)
    ensures Accumulated(acc, ps, false) % SPAN32 == (acc + Total(ps)) % SPAN32
  {
    WholeSum(acc, ps);
    LowOfSum(Accumulated(acc, ps, false), acc + Total(ps), Negatives(ps));
  }

  lemma SignedOfSum(x: Acc, acc: Acc, total: int)
    requires -SPAN40 / 2 <= Signed(acc, SPAN40) + total < SPAN40 / 2
    ensures x == (acc + total) % SPAN40 <==> Signed(x, SPAN40) == Signed(acc, SPAN40) + total
  {
  }

  /** A whole unsaturated sum that fits 40 bits is exact in them if and only if the number of negative
      products is a multiple of 256. */
  lemma SumExactness(acc: Acc, ps: seq<Operands>)
    ensures Accumulated(acc, ps, false) == (acc + Total(ps)) % SPAN40 <==> Negatives(ps) % 256 == 0
    ensures -SPAN40 / 2 <= Signed(acc, SPAN40) + Total(ps) < SPAN40 / 2 ==>
      (Signed(Accumulated(acc, ps, false), SPAN40) == Signed(acc, SPAN40) + Total(ps) <==> Negatives(ps) % 256 == 0)
  {
    WholeSum(acc, ps);
    ExactSum(Accumulated(acc, ps, false), acc + Total(ps), Negatives(ps));
    if -SPAN40 / 2 <= Signed(acc, SPAN40) + Total(ps) < SPAN40 / 2 {
      SignedOfSum(Accumulated(acc, ps, false), acc, Total(ps));
    }
  }

  /** With saturation a step adds the product, not sign-extended, and clamps the exact sum. */
  lemma StepSaturates(acc: Acc, p: Operands)
    ensures Signed(MultiplyAdd(acc, p, true), SPAN40) == Clamp(Signed(acc, SPAN40) + p.Product() % SPAN32)
  {
    MultipliersAgree(p.a, p.b, p.signedA, p.signedB);
    SaturatesExactly(acc, Multiply32(p.a, p.b, p.signedA, p.signedB), false);
    assert Signed(p.Product() % SPAN32, SPAN40) == p.Product() % SPAN32;
  }

  /** A sum that is clamped after every step. */
  function ClampedSum(acc: int, ps: seq<Operands>): int {
    if ps == [] then acc else Clamp(ClampedSum(acc, ps[..|ps| - 1]) + ps[|ps| - 1].Product() % SPAN32)
  }

  /** Any number of saturated steps is such a sum. */
  lemma {:induction false} RunSaturates(acc: Acc, ps: seq<Operands>)
    ensures Signed(Accumulated(acc, ps, true), SPAN40) == ClampedSum(Signed(acc, SPAN40), ps)
  {
    if ps != [] {
      RunSaturates(acc, ps[..|ps| - 1]);
      StepSaturates(Accumulated(acc, ps[..|ps| - 1], true), ps[|ps| - 1]);
    }
  }

  /** The sum as the adder sees the products. */
  function ZeroExtendedTotal(ps: seq<Operands>): nat {
    if ps == [] then 0 else ZeroExtendedTotal(ps[..|ps| - 1]) + ps[|ps| - 1].Product() % SPAN32
  }

  lemma {:induction false} TotalSeen(ps: seq<Operands>)
    ensures ZeroExtendedTotal(ps) == Total(ps) + SPAN32 * Negatives(ps)
  {
    if ps != [] {
      var p := ps[|ps| - 1];
      TotalSeen(ps[..|ps| - 1]);
      WordProduct(ValueOf(p.a, p.signedA), ValueOf(p.b, p.signedB));
      ProductModulo(p.Product());
    }
  }

  lemma {:induction false} ClampedOnce(acc: int, ps: seq<Operands>)
    requires -SPAN40 / 2 <= acc < SPAN40 / 2
    ensures ClampedSum(acc, ps) == Clamp(acc + ZeroExtendedTotal(ps))
  {
    if ps != [] {
      ClampedOnce(acc, ps[..|ps| - 1]);
    }
  }

  /** A saturated sum of any length is the exact one plus 2^32 for every negative product, clamped at the
      top; without negative products it is the exact one, clamped. */
  lemma SaturatedSum(acc: Acc, ps: seq<Operands>)
    ensures Signed(Accumulated(acc, ps, true), SPAN40)
      == Clamp(Signed(acc, SPAN40) + Total(ps) + SPAN32 * Negatives(ps))
    ensures Negatives(ps) == 0 ==>
      var exact := Signed(acc, SPAN40) + Total(ps);
      Signed(Accumulated(acc, ps, true), SPAN40) == if exact >= SPAN40 / 2 then SPAN40 / 2 - 1 else exact
  {
    SignedIs(acc, SPAN40);
    RunSaturates(acc, ps);
    ClampedOnce(Signed(acc, SPAN40), ps);
    TotalSeen(ps);
  }

  lemma UnsignedProduct(p: Operands)
    requires !p.signedA && !p.signedB
    ensures 0 <= p.Product() <= 0xFFFE_0001 && Multiply32(p.a, p.b, false, false) == p.Product()
  {
    MultipliersAgree(p.a, p.b, false, false);
    ProductBound(p.a, p.b);
  }

  lemma ProductBound(a: int, b: int)
    requires 0 <= a <= 0xFFFF && 0 <= b <= 0xFFFF
    ensures 0 <= a * b <= 0xFFFF * 0xFFFF
  {
    assert a * b <= 0xFFFF * b;
  }

  lemma SmallExact(acc: Acc, p: Long)
    requires acc + p < SPAN40 / 2
    ensures Signed(acc, SPAN40) == acc && Signed(p, SPAN40) == p && Exact(acc, p, false) == acc + p
    ensures Clamp(Exact(acc, p, false)) == acc + p && Signed(acc + p, SPAN40) == acc + p
  {
  }

  lemma SmallSum(acc: Acc, p: Long, sat: bool)
    requires acc + p < SPAN40 / 2
    ensures AddSub(acc, p, false, sat) == acc + p
  {
    SmallExact(acc, p);
    if sat {
      SaturatesExactly(acc, p, false);
      SameSigned(AddSub(acc, p, false, true), acc + p);
    } else {
      WrapsExactly(acc, p, false);
    }
  }

  lemma SameSigned(x: Acc, y: Acc)
    requires Signed(x, SPAN40) == Signed(y, SPAN40)
    ensures x == y
  {
  }

  /** Up to 128 unsigned products from zero are exact in 40 bits, with saturation or without. */
  lemma {:induction false} UnsignedExact(ps: seq<Operands>, sat: bool)
    requires |ps| <= 128 && forall i :: 0 <= i < |ps| ==> !ps[i].signedA && !ps[i].signedB
    ensures Accumulated(0, ps, sat) == Total(ps) <= |ps| * 0xFFFE_0001
  {
    if ps != [] {
      var init, p := ps[..|ps| - 1], ps[|ps| - 1];
      UnsignedExact(init, sat);
      UnsignedProduct(p);
      SmallSum(Total(init), p.Product(), sat);
    }
  }

  /** In 40 bits a step that does not overflow is exact only for a product that is not negative: the
      product is not sign-extended. */
  lemma StepExactness(acc: Acc, p: Operands)
    requires -SPAN40 / 2 + SPAN32 <= Signed(acc, SPAN40) < SPAN40 / 2 - SPAN32
    ensures Signed(MultiplyAdd(acc, p, false), SPAN40) == Signed(acc, SPAN40) + p.Product() <==> p.Product() >= 0
  {
    MultipliersAgree(p.a, p.b, p.signedA, p.signedB);
    WordProduct(ValueOf(p.a, p.signedA), ValueOf(p.b, p.signedB));
    WrapsExactly(acc, Multiply32(p.a, p.b, p.signedA, p.signedB), false);
    ZeroExtended(acc, p.Product());
  }

  lemma WordProduct(x: int, y: int)
    requires -0x8000 <= x <= 0xFFFF && -0x8000 <= y <= 0xFFFF
    ensures -SPAN32 < x * y < SPAN32
  {
    MagnitudeBound(x, y);
  }

  lemma MagnitudeBound(x: int, y: int)
    requires -0xFFFF <= x <= 0xFFFF && -0xFFFF <= y <= 0xFFFF
    ensures -0xFFFF * 0xFFFF <= x * y <= 0xFFFF * 0xFFFF
  {
    if x >= 0 && y >= 0 {
      ProductBound(x, y);
    } else if x >= 0 {
      ProductBound(x, -y);
      assert x * y == -(x * (-y));
    } else if y >= 0 {
      ProductBound(-x, y);
      assert x * y == -((-x) * y);
    } else {
      ProductBound(-x, -y);
      assert x * y == (-x) * (-y);
    }
  }

  lemma ZeroExtended(acc: Acc, p: int)
    requires -SPAN32 < p < SPAN32
    requires -SPAN40 / 2 + SPAN32 <= Signed(acc, SPAN40) < SPAN40 / 2 - SPAN32
    ensures Signed((acc + p % SPAN32) % SPAN40, SPAN40) == Signed(acc, SPAN40) + p <==> p >= 0
  {
  }
}

/** The four-bits-at-a-time CRC of rtl/verilog/soc/CRC32_D4.v, which is division by the generator
    polynomial of section 3.2.9 of IEEE 802.3-2018. */
module Crc32 {

  /** Bits of a register by index, or the coefficients of a polynomial, highest power first. */
  type Bits = seq<bool>

  predicate Xor(a: bool, b: bool) {
    a != b
  }

  // ------------------------------------------------------------ the source

  /** Index `i` of a register is place `|r| - 1 - i` of its bits, highest first. */
  function Turned(r: Bits): (t: Bits)
    ensures |t| == |r| && forall i :: 0 <= i < |r| ==> t[i] == r[|r| - 1 - i]
  {
    seq(|r|, i requires 0 <= i < |r| => r[|r| - 1 - i])
  }

  /** nextCRC32_D4, bit by bit; `c` and `d` are indexed as in the source. */
  function NextBit(d: Bits, c: Bits, i: nat): bool
    requires |d| == 4 && |c| == 32 && i < 32
  {
    match i
    case 0 => Xor(d[0], c[28])
    case 1 => Xor(d[1], Xor(d[0], Xor(c[28], c[29])))
    case 2 => Xor(d[2], Xor(d[1], Xor(d[0], Xor(c[28], Xor(c[29], c[30])))))
    case 3 => Xor(d[3], Xor(d[2], Xor(d[1], Xor(c[29], Xor(c[30], c[31])))))
    case 4 => Xor(d[3], Xor(d[2], Xor(d[0], Xor(c[0], Xor(c[28], Xor(c[30], c[31]))))))
    case 5 => Xor(d[3], Xor(d[1], Xor(d[0], Xor(c[1], Xor(c[28], Xor(c[29], c[31]))))))
    case 6 => Xor(d[2], Xor(d[1], Xor(c[2], Xor(c[29], c[30]))))
    case 7 => Xor(d[3], Xor(d[2], Xor(d[0], Xor(c[3], Xor(c[28], Xor(c[30], c[31]))))))
    case 8 => Xor(d[3], Xor(d[1], Xor(d[0], Xor(c[4], Xor(c[28], Xor(c[29], c[31]))))))
    case 9 => Xor(d[2], Xor(d[1], Xor(c[5], Xor(c[29], c[30]))))
    case 10 => Xor(d[3], Xor(d[2], Xor(d[0], Xor(c[6], Xor(c[28], Xor(c[30], c[31]))))))
    case 11 => Xor(d[3], Xor(d[1], Xor(d[0], Xor(c[7], Xor(c[28], Xor(c[29], c[31]))))))
    case 12 => Xor(d[2], Xor(d[1], Xor(d[0], Xor(c[8], Xor(c[28], Xor(c[29], c[30]))))))
    case 13 => Xor(d[3], Xor(d[2], Xor(d[1], Xor(c[9], Xor(c[29], Xor(c[30], c[31]))))))
    case 14 => Xor(d[3], Xor(d[2], Xor(c[10], Xor(c[30], c[31]))))
    case 15 => Xor(d[3], Xor(c[11], c[31]))
    case 16 => Xor(d[0], Xor(c[12], c[28]))
    case 17 => Xor(d[1], Xor(c[13], c[29]))
    case 18 => Xor(d[2], Xor(c[14], c[30]))
    case 19 => Xor(d[3], Xor(c[15], c[31]))
    case 20 => c[16]
    case 21 => c[17]
    case 22 => Xor(d[0], Xor(c[18], c[28]))
    case 23 => Xor(d[1], Xor(d[0], Xor(c[19], Xor(c[28], c[29]))))
    case 24 => Xor(d[2], Xor(d[1], Xor(c[20], Xor(c[29], c[30]))))
    case 25 => Xor(d[3], Xor(d[2], Xor(c[21], Xor(c[30], c[31]))))
    case 26 => Xor(d[3], Xor(d[0], Xor(c[22], Xor(c[28], c[31]))))
    case 27 => Xor(d[1], Xor(c[23], c[29]))
    case 28 => Xor(d[2], Xor(c[24], c[30]))
    case 29 => Xor(d[3], Xor(c[25], c[31]))
    case 30 => c[26]
    case _ => c[27]
  }

  function NextCrc(d: Bits, c: Bits): (r: Bits)
    requires |d| == 4 && |c| == 32
    ensures |r| == 32 && forall i: nat :: i < 32 ==> r[i] == NextBit(d, c, i)
  {
    seq(32, i requires 0 <= i < 32 => NextBit(d, c, i))
  }

  // ---------------------------------------------- the serial shift register

  /** The generator without its leading term: 26 23 22 16 12 11 10 8 7 5 4 2 1 0. */
  predicate GenBit(power: int) {
    || power == 26 || power == 23 || power == 22 || power == 16 || power == 12 || power == 11 || power == 10
    || power == 8 || power == 7 || power == 5 || power == 4 || power == 2 || power == 1 || power == 0
  }

  function GenTail(): (g: Bits)
    ensures |g| == 32 && forall i :: 0 <= i < 32 ==> g[i] == GenBit(31 - i)
  {
    seq(32, i requires 0 <= i < 32 => GenBit(31 - i))
  }

  /** One bit of data into the register of a generator `g`: the top bit and the data bit decide whether
      the generator goes in. */
  function Serial(g: Bits, r: Bits, d: bool): (s: Bits)
    requires |g| == |r| == 32
    ensures |s| == 32
    ensures forall i :: 0 <= i < 32 ==> s[i] == Xor(i < 31 && r[i + 1], Xor(r[0], d) && g[i])
  {
    seq(32, i requires 0 <= i < 32 => Xor(i < 31 && r[i + 1], Xor(r[0], d) && g[i]))
  }

  /** A whole message, first bit first. */
  function Crc(g: Bits, r: Bits, m: Bits): (s: Bits)
    requires |g| == |r| == 32
    ensures |s| == 32
    decreases |m|
  {
    if m == [] then r else Crc(g, Serial(g, r, m[0]), m[1..])
  }

  function FourSteps(g: Bits, r: Bits, d: Bits): (s: Bits)
    requires |g| == |r| == 32 && |d| == 4
    ensures |s| == 32
  {
    Serial(g, Serial(g, Serial(g, Serial(g, r, d[3]), d[2]), d[1]), d[0])
  }

  /** What four steps leave at one place. */
  function Fed(g: Bits, r: Bits, d: Bits, i: nat): bool
    requires |g| == |r| == 32 && |d| == 4 && i < 32
  {
    Xor(i < 30 && Pair(g, r, Xor(r[0], d[3]), Xor(r[1], d[2]), i + 2),
        Xor(i < 31 && Xor(r[2], d[1]) && g[i + 1], Xor(r[3], d[0]) && g[i]))
  }

  /** What two steps with the decisions `x` and `y` leave at one place. */
  function Pair(g: Bits, r: Bits, x: bool, y: bool, i: nat): bool
    requires |g| == |r| == 32 && i < 32
  {
    Xor(i < 30 && r[i + 2], Xor(i < 31 && x && g[i + 1], y && g[i]))
  }

  /** A generator without terms in the places next to the highest lets four top bits through. */
  predicate Sparse(g: Bits)
    requires |g| == 32
  {
    !g[0] && !g[1] && !g[2]
  }

  lemma TwoStepsAt(g: Bits, r: Bits, d: bool, d': bool, i: nat)
    requires |g| == |r| == 32 && i < 32 && !g[0]
    ensures Serial(g, Serial(g, r, d), d')[i] == Pair(g, r, Xor(r[0], d), Xor(r[1], d'), i)
  {
    var s := Serial(g, r, d);
    assert s[0] == r[1];
    assert i < 31 ==> s[i + 1] == Xor(i < 30 && r[i + 2], Xor(r[0], d) && g[i + 1]);
  }

  ghost predicate IsTwice(g: Bits, r: Bits, x: bool, y: bool, s: Bits)
    requires |g| == |r| == 32
  {
    |s| == 32 && forall i: nat :: i < 32 ==> s[i] == Pair(g, r, x, y, i)
  }

  lemma TwoSteps(g: Bits, r: Bits, d: bool, d': bool)
    requires |g| == |r| == 32 && !g[0]
    ensures IsTwice(g, r, Xor(r[0], d), Xor(r[1], d'), Serial(g, Serial(g, r, d), d'))
  {
    forall i: nat | i < 32
      ensures Serial(g, Serial(g, r, d), d')[i] == Pair(g, r, Xor(r[0], d), Xor(r[1], d'), i)
    {
      TwoStepsAt(g, r, d, d', i);
    }
  }

  /** Two steps twice. */
  lemma TwicePair(g: Bits, r: Bits, s: Bits, t: Bits, d: Bits, i: nat)
    requires |g| == |r| == 32 && |d| == 4 && i < 32 && Sparse(g)
    requires IsTwice(g, r, Xor(r[0], d[3]), Xor(r[1], d[2]), s)
    requires IsTwice(g, s, Xor(s[0], d[1]), Xor(s[1], d[0]), t)
    ensures t[i] == Fed(g, r, d, i)
  {
    assert s[0] == r[2] && s[1] == r[3];
    assert i < 30 ==> s[i + 2] == Pair(g, r, Xor(r[0], d[3]), Xor(r[1], d[2]), i + 2);
    assert t[i] == Pair(g, s, Xor(s[0], d[1]), Xor(s[1], d[0]), i);
  }

  lemma FourStepsAt(g: Bits, r: Bits, d: Bits, i: nat)
    requires |g| == |r| == 32 && |d| == 4 && i < 32 && Sparse(g)
    ensures FourSteps(g, r, d)[i] == Fed(g, r, d, i)
  {
    var s := Serial(g, Serial(g, r, d[3]), d[2]);
    TwoSteps(g, r, d[3], d[2]);
    TwoSteps(g, s, d[1], d[0]);
    TwicePair(g, r, s, FourSteps(g, r, d), d, i);
  }

  lemma Bits0(d: Bits, r: Bits)
    requires |d| == 4 && |r| == 32
    ensures NextBit(d, Turned(r), 0) == Fed(GenTail(), r, d, 31)
    ensures NextBit(d, Turned(r), 1) == Fed(GenTail(), r, d, 30)
  {
  }

  lemma Bits2(d: Bits, r: Bits)
    requires |d| == 4 && |r| == 32
    ensures NextBit(d, Turned(r), 2) == Fed(GenTail(), r, d, 29)
    ensures NextBit(d, Turned(r), 3) == Fed(GenTail(), r, d, 28)
  {
  }

  lemma Bits4(d: Bits, r: Bits)
    requires |d| == 4 && |r| == 32
    ensures NextBit(d, Turned(r), 4) == Fed(GenTail(), r, d, 27)
    ensures NextBit(d, Turned(r), 5) == Fed(GenTail(), r, d, 26)
  {
  }

  lemma Bits6(d: Bits, r: Bits)
    requires |d| == 4 && |r| == 32
    ensures NextBit(d, Turned(r), 6) == Fed(GenTail(), r, d, 25)
    ensures NextBit(d, Turned(r), 7) == Fed(GenTail(), r, d, 24)
  {
  }

  lemma Bits8(d: Bits, r: Bits)
    requires |d| == 4 && |r| == 32
    ensures NextBit(d, Turned(r), 8) == Fed(GenTail(), r, d, 23)
    ensures NextBit(d, Turned(r), 9) == Fed(GenTail(), r, d, 22)
  {
  }

  lemma Bits10(d: Bits, r: Bits)
    requires |d| == 4 && |r| == 32
    ensures NextBit(d, Turned(r), 10) == Fed(GenTail(), r, d, 21)
    ensures NextBit(d, Turned(r), 11) == Fed(GenTail(), r, d, 20)
  {
  }

  lemma Bits12(d: Bits, r: Bits)
    requires |d| == 4 && |r| == 32
    ensures NextBit(d, Turned(r), 12) == Fed(GenTail(), r, d, 19)
    ensures NextBit(d, Turned(r), 13) == Fed(GenTail(), r, d, 18)
  {
  }

  lemma Bits14(d: Bits, r: Bits)
    requires |d| == 4 && |r| == 32
    ensures NextBit(d, Turned(r), 14) == Fed(GenTail(), r, d, 17)
    ensures NextBit(d, Turned(r), 15) == Fed(GenTail(), r, d, 16)
  {
  }

  lemma Bits16(d: Bits, r: Bits)
    requires |d| == 4 && |r| == 32
    ensures NextBit(d, Turned(r), 16) == Fed(GenTail(), r, d, 15)
    ensures NextBit(d, Turned(r), 17) == Fed(GenTail(), r, d, 14)
  {
  }

  lemma Bits18(d: Bits, r: Bits)
    requires |d| == 4 && |r| == 32
    ensures NextBit(d, Turned(r), 18) == Fed(GenTail(), r, d, 13)
    ensures NextBit(d, Turned(r), 19) == Fed(GenTail(), r, d, 12)
  {
  }

  lemma Bits20(d: Bits, r: Bits)
    requires |d| == 4 && |r| == 32
    ensures NextBit(d, Turned(r), 20) == Fed(GenTail(), r, d, 11)
    ensures NextBit(d, Turned(r), 21) == Fed(GenTail(), r, d, 10)
  {
  }

  lemma Bits22(d: Bits, r: Bits)
    requires |d| == 4 && |r| == 32
    ensures NextBit(d, Turned(r), 22) == Fed(GenTail(), r, d, 9)
    ensures NextBit(d, Turned(r), 23) == Fed(GenTail(), r, d, 8)
  {
  }

  lemma Bits24(d: Bits, r: Bits)
    requires |d| == 4 && |r| == 32
    ensures NextBit(d, Turned(r), 24) == Fed(GenTail(), r, d, 7)
    ensures NextBit(d, Turned(r), 25) == Fed(GenTail(), r, d, 6)
  {
  }

  lemma Bits26(d: Bits, r: Bits)
    requires |d| == 4 && |r| == 32
    ensures NextBit(d, Turned(r), 26) == Fed(GenTail(), r, d, 5)
    ensures NextBit(d, Turned(r), 27) == Fed(GenTail(), r, d, 4)
  {
  }

  lemma Bits28(d: Bits, r: Bits)
    requires |d| == 4 && |r| == 32
    ensures NextBit(d, Turned(r), 28) == Fed(GenTail(), r, d, 3)
    ensures NextBit(d, Turned(r), 29) == Fed(GenTail(), r, d, 2)
  {
  }

  lemma Bits30(d: Bits, r: Bits)
    requires |d| == 4 && |r| == 32
    ensures NextBit(d, Turned(r), 30) == Fed(GenTail(), r, d, 1)
    ensures NextBit(d, Turned(r), 31) == Fed(GenTail(), r, d, 0)
  {
  }

  lemma LowBitsAt(d: Bits, r: Bits, i: nat)
    requires |d| == 4 && |r| == 32 && i < 16
    ensures NextBit(d, Turned(r), i) == Fed(GenTail(), r, d, 31 - i)
  {
    match i / 2
    case 0 => Bits0(d, r);
    case 1 => Bits2(d, r);
    case 2 => Bits4(d, r);
    case 3 => Bits6(d, r);
    case 4 => Bits8(d, r);
    case 5 => Bits10(d, r);
    case 6 => Bits12(d, r);
    case _ => Bits14(d, r);
  }

  lemma HighBitsAt(d: Bits, r: Bits, i: nat)
    requires |d| == 4 && |r| == 32 && 16 <= i < 32
    ensures NextBit(d, Turned(r), i) == Fed(GenTail(), r, d, 31 - i)
  {
    match i / 2
    case 8 => Bits16(d, r);
    case 9 => Bits18(d, r);
    case 10 => Bits20(d, r);
    case 11 => Bits22(d, r);
    case 12 => Bits24(d, r);
    case 13 => Bits26(d, r);
    case 14 => Bits28(d, r);
    case _ => Bits30(d, r);
  }

  /** The four-bit step is four serial steps, D[3] first. */
  lemma NibbleIsFourBits(d: Bits, r: Bits)
    requires |d| == 4 && |r| == 32
    ensures NextCrc(d, Turned(r)) == Turned(FourSteps(GenTail(), r, d))
  {
    forall i: nat | i < 32
      ensures NextBit(d, Turned(r), i) == FourSteps(GenTail(), r, d)[31 - i]
    {
      FourStepsAt(GenTail(), r, d, 31 - i);
      if i < 16 {
        LowBitsAt(d, r, i);
      } else {
        HighBitsAt(d, r, i);
      }
    }
  }

  /** Nibble after nibble, as the source folds it. */
  function NibbleCrc(c: Bits, nibbles: seq<Bits>): (s: Bits)
    requires |c| == 32 && forall k :: 0 <= k < |nibbles| ==> |nibbles[k]| == 4
    ensures |s| == 32
    decreases |nibbles|
  {
    if nibbles == [] then c else NibbleCrc(NextCrc(nibbles[0], c), nibbles[1..])
  }

  /** The bits of the nibbles in the order in which they count. */
  function Spread(nibbles: seq<Bits>): Bits
    requires forall k :: 0 <= k < |nibbles| ==> |nibbles[k]| == 4
  {
    if nibbles == [] then []
    else [nibbles[0][3], nibbles[0][2], nibbles[0][1], nibbles[0][0]] + Spread(nibbles[1..])
  }

  lemma CrcCons(g: Bits, r: Bits, b: bool, m: Bits)
    requires |g| == |r| == 32
    ensures Crc(g, r, [b] + m) == Crc(g, Serial(g, r, b), m)
  {
    assert ([b] + m)[1..] == m;
  }

  lemma TwoBits(g: Bits, r: Bits, b: bool, b': bool, m: Bits)
    requires |g| == |r| == 32
    ensures Crc(g, r, [b, b'] + m) == Crc(g, Serial(g, Serial(g, r, b), b'), m)
  {
    assert [b, b'] + m == [b] + ([b'] + m);
    CrcCons(g, r, b, [b'] + m);
    CrcCons(g, Serial(g, r, b), b', m);
  }

  lemma FourBits(g: Bits, r: Bits, d: Bits, m: Bits)
    requires |g| == |r| == 32 && |d| == 4
    ensures Crc(g, r, [d[3], d[2], d[1], d[0]] + m) == Crc(g, FourSteps(g, r, d), m)
  {
    var b := [d[1], d[0]] + m;
    assert [d[3], d[2], d[1], d[0]] + m == [d[3], d[2]] + b;
    TwoBits(g, r, d[3], d[2], b);
    TwoBits(g, Serial(g, Serial(g, r, d[3]), d[2]), d[1], d[0], m);
  }

  /** Any number of nibbles is the serial CRC of their bits. */
  lemma {:induction false} NibblesAreBits(r: Bits, nibbles: seq<Bits>)
    requires |r| == 32 && forall k :: 0 <= k < |nibbles| ==> |nibbles[k]| == 4
    ensures NibbleCrc(Turned(r), nibbles) == Turned(Crc(GenTail(), r, Spread(nibbles)))
    decreases |nibbles|
  {
    if nibbles != [] {
      NibbleIsFourBits(nibbles[0], r);
      FourBits(GenTail(), r, nibbles[0], Spread(nibbles[1..]));
      NibblesAreBits(FourSteps(GenTail(), r, nibbles[0]), nibbles[1..]);
    }
  }

  // -------------------------------------------------------- long division

  function Zeros(n: nat): (z: Bits)
    ensures |z| == n && forall i :: 0 <= i < n ==> !z[i]
  {
    if n == 0 then [] else [false] + Zeros(n - 1)
  }

  function Sum(a: Bits, b: Bits): (x: Bits)
    requires |a| == |b|
    ensures |x| == |a| && forall i :: 0 <= i < |a| ==> x[i] == Xor(a[i], b[i])
  {
    seq(|a|, i requires 0 <= i < |a| => Xor(a[i], b[i]))
  }

  /** The generator, leading term and all, once or not at all, at the front of `n` coefficients. */
  function Aligned(g: Bits, take: bool, n: nat): (a: Bits)
    requires |g| == 32 && n >= 33
    ensures |a| == n
    ensures forall i :: 0 <= i < n ==> a[i] == (take && (i == 0 || (i < 33 && g[i - 1])))
  {
    if take then [true] + g + Zeros(n - 33) else Zeros(n)
  }

  /** One line of schoolbook long division. */
  function Line(g: Bits, a: Bits): (b: Bits)
    requires |g| == 32 && |a| >= 33
    ensures |b| == |a| - 1
  {
    Sum(a, Aligned(g, a[0], |a|))[1..]
  }

  function Remainder(g: Bits, a: Bits): (r: Bits)
    requires |g| == 32 && |a| >= 32
    ensures |r| == 32
    decreases |a|
  {
    if |a| == 32 then a else Remainder(g, Line(g, a))
  }

  function Quotient(g: Bits, a: Bits): (q: Bits)
    requires |g| == 32 && |a| >= 32
    ensures |q| == |a| - 32
    decreases |a|
  {
    if |a| == 32 then [] else [a[0]] + Quotient(g, Line(g, a))
  }

  /** Schoolbook multiplication by the generator. */
  function Product(g: Bits, q: Bits): (p: Bits)
    requires |g| == 32
    ensures |p| == |q| + 32
  {
    if q == [] then Zeros(32) else Sum(Aligned(g, q[0], |q| + 32), [false] + Product(g, q[1..]))
  }

  lemma LineBack(g: Bits, a: Bits)
    requires |g| == 32 && |a| >= 33
    ensures a == Sum(Aligned(g, a[0], |a|), [false] + Line(g, a))
  {
  }

  lemma SumShift(a: Bits, b: Bits, c: Bits)
    requires |b| == |c| && |a| == |b| + 1
    ensures Sum(a, [false] + Sum(b, c)) == Sum(Sum(a, [false] + b), [false] + c)
  {
  }

  lemma PadShift(n: nat, r: Bits)
    ensures [false] + (Zeros(n) + r) == Zeros(n + 1) + r
  {
    assert [false] + Zeros(n) == Zeros(n + 1);
    assert [false] + (Zeros(n) + r) == ([false] + Zeros(n)) + r;
  }

  lemma ProductCons(g: Bits, b: bool, q: Bits)
    requires |g| == 32
    ensures Product(g, [b] + q) == Sum(Aligned(g, b, |q| + 33), [false] + Product(g, q))
  {
    assert ([b] + q)[1..] == q;
  }

  /** Long division divides: the dividend is the quotient times the generator plus the remainder. */
  lemma {:induction false} DivisionIdentity(g: Bits, a: Bits)
    requires |g| == 32 && |a| >= 32
    ensures a == Sum(Product(g, Quotient(g, a)), Zeros(|a| - 32) + Remainder(g, a))
    decreases |a|
  {
    if |a| == 32 {
      assert Sum(Zeros(32), Zeros(0) + a) == a;
    } else {
      var b := Line(g, a);
      var q, r := Quotient(g, b), Remainder(g, b);
      DivisionIdentity(g, b);
      LineBack(g, a);
      SumShift(Aligned(g, a[0], |a|), Product(g, q), Zeros(|b| - 32) + r);
      PadShift(|b| - 32, r);
      ProductCons(g, a[0], q);
    }
  }

  lemma LineOfProduct(g: Bits, b: bool, p: Bits, z: Bits)
    requires |g| == 32 && |p| == |z| >= 32
    ensures Line(g, Sum(Sum(Aligned(g, b, |p| + 1), [false] + p), [false] + z)) == Sum(p, z)
  {
  }

  lemma LeadingTerm(g: Bits, b: bool, p: Bits, z: Bits)
    requires |g| == 32 && |p| == |z| >= 32
    ensures Sum(Sum(Aligned(g, b, |p| + 1), [false] + p), [false] + z)[0] == b
  {
  }

  /** There is only one way to divide. */
  lemma {:induction false} DivisionUnique(g: Bits, a: Bits, q: Bits, r: Bits)
    requires |g| == |r| == 32 && |a| == |q| + 32 && a == Sum(Product(g, q), Zeros(|q|) + r)
    ensures q == Quotient(g, a) && r == Remainder(g, a)
    decreases |a|
  {
    if q == [] {
      assert Sum(Zeros(32), Zeros(0) + r) == r;
    } else {
      var rest := q[1..];
      var p, z := Product(g, rest), Zeros(|rest|) + r;
      PadShift(|rest|, r);
      LineOfProduct(g, q[0], p, z);
      LeadingTerm(g, q[0], p, z);
      DivisionUnique(g, Line(g, a), rest, r);
      assert q == [q[0]] + rest;
    }
  }

  // ------------------------------------------------- the CRC is a remainder

  /** The dividend: the message times x^32, with the initial register added to its highest terms. */
  function Dividend(r: Bits, m: Bits): (a: Bits)
    requires |r| == 32
    ensures |a| == |m| + 32
  {
    Sum(m + Zeros(32), r + Zeros(|m|))
  }

  lemma DividendAt(r: Bits, m: Bits, i: nat)
    requires |r| == 32 && i < |m| + 32
    ensures Dividend(r, m)[i] == Xor(i < |m| && m[i], i < 32 && r[i])
  {
  }

  lemma SerialIsLine(g: Bits, r: Bits, m: Bits)
    requires |g| == |r| == 32 && m != []
    ensures Line(g, Dividend(r, m)) == Dividend(Serial(g, r, m[0]), m[1..])
  {
    var a, b := Dividend(r, m), Dividend(Serial(g, r, m[0]), m[1..]);
    forall i: nat | i < |b|
      ensures Line(g, a)[i] == b[i]
    {
      DividendAt(r, m, 0);
      DividendAt(r, m, i + 1);
      DividendAt(Serial(g, r, m[0]), m[1..], i);
    }
  }

  /** The register after a message is the remainder of its dividend by the generator. */
  lemma {:induction false} CrcIsRemainder(g: Bits, r: Bits, m: Bits)
    requires |g| == |r| == 32
    ensures Crc(g, r, m) == Remainder(g, Dividend(r, m))
    decreases |m|
  {
    if m == [] {
      assert Dividend(r, m) == r;
    } else {
      SerialIsLine(g, r, m);
      CrcIsRemainder(g, Serial(g, r, m[0]), m[1..]);
    }
  }

  /** The CRC of the source over any nibbles is the remainder of a polynomial division. */
  lemma NibbleCrcIsRemainder(r: Bits, nibbles: seq<Bits>)
    requires |r| == 32 && forall k :: 0 <= k < |nibbles| ==> |nibbles[k]| == 4
    ensures NibbleCrc(Turned(r), nibbles) == Turned(Remainder(GenTail(), Dividend(r, Spread(nibbles))))
  {
    NibblesAreBits(r, nibbles);
    CrcIsRemainder(GenTail(), r, Spread(nibbles));
  }

  lemma SerialLinear(g: Bits, r: Bits, r': Bits, d: bool, d': bool)
    requires |g| == |r| == |r'| == 32
    ensures Serial(g, Sum(r, r'), Xor(d, d')) == Sum(Serial(g, r, d), Serial(g, r', d'))
  {
  }

  /** It is linear in the register and the message together. */
  lemma {:induction false} CrcLinear(g: Bits, r: Bits, r': Bits, m: Bits, m': Bits)
    requires |g| == |r| == |r'| == 32 && |m| == |m'|
    ensures Crc(g, Sum(r, r'), Sum(m, m')) == Sum(Crc(g, r, m), Crc(g, r', m'))
    decreases |m|
  {
    if m != [] {
      SerialLinear(g, r, r', m[0], m'[0]);
      assert Sum(m, m')[1..] == Sum(m[1..], m'[1..]);
      CrcLinear(g, Serial(g, r, m[0]), Serial(g, r', m'[0]), m[1..], m'[1..]);
    }
  }
}

/** What registers and integers leave in their fields: the numbers the units read there. */
module OperandFields {
  import opened Words
  import opened WordBits
  import opened Vliwdec
  import opened Encoding
  import opened InsnTable
  import opened Alignment
  import opened Disasm
  import opened InsnWords
  import opened SymbolFields

  // ------------------------------------------------------------- registers

  /** The registers of the core: halves and wholes of accumulators, pointers and predicates by number, and
      special registers by the address they have on their bus. */
  datatype Register =
    Half(n: nat, high: bool) | Whole(n: nat) | Pointer(n: nat) | Predicate(n: nat) | Special(n: nat)
  {
    predicate Exists() {
      if Special? then SpecialName(n) != "" else n < if Predicate? then 4 else 8
    }
  }

  /** The special register at an address of rtl/verilog/specregs.v, by its name in the source text. */
  function SpecialName(address: nat): string {
    match address
    case 0x1 => "retpc"
    case 0x2 => "sp"
    case 0x3 => "satctrl"
    case 0x4 => "mulsign"
    case 0x5 => "masksel"
    case 0x6 => "mask0"
    case 0x7 => "mask1"
    case 0x8 => "modsel"
    case 0x9 => "mod0"
    case 0xA => "mod1"
    case 0xB => "bitrev"
    case 0xC => "retipc"
    case 0xD => "pred"
    case 0xE => "bkrepcnt"
    case 0x1E => "gpio2"
    case 0x1F => "gpio"
    case _ => ""
  }

  function DigitOf(n: nat): char
    requires n < 10
  {
    ('0' as int + n) as char
  }

  /** How the source spells a register, without the dollar sign. */
  function Spelling(r: Register): string
    requires r.Exists()
  {
    match r
    case Half(n, high) => "acc" + [DigitOf(n)] + if high then "h" else "l"
    case Whole(n) => "acc" + [DigitOf(n)]
    case Pointer(n) => "ptr" + [DigitOf(n)]
    case Predicate(n) => "pred" + [DigitOf(n)]
    case Special(n) => SpecialName(n)
  }

  /** The fields in which a register can stand. */
  predicate Takes(e: Encoder, r: Register) {
    match e
    case EncAcc => r.Whole?
    case EncAccHalf => r.Half?
    case EncPtr => r.Pointer?
    case EncPred => r.Predicate?
    case EncReg => r.Half? || r.Pointer?
    case EncSpec => r.Special?
    case _ => false
  }

  /** What a unit reads out of such a field for the register: a half in the lowest bit, under the number of
      its accumulator; where both kinds are allowed, accumulators from 16 on. */
  function ReadAs(e: Encoder, r: Register): nat {
    var half := if r.Half? && r.high then 1 else 0;
    match e
    case EncAccHalf => 2 * r.n + half
    case EncReg => if r.Half? then 16 + 2 * r.n + half else r.n
    case _ => r.n
  }

  lemma WordStep(n: nat, bit: bool)
    ensures ToWord(2 * n + if bit then 1 else 0) == PushBit(ToWord(n), bit)
  {
    ToWordUnfold(2 * n + if bit then 1 else 0);
  }

  /** The words of small numbers. */
  function SmallWord(n: nat): bv16
    requires n < 8
  {
    match n
    case 0 => 0
    case 1 => 1
    case 2 => 2
    case 3 => 3
    case 4 => 4
    case 5 => 5
    case 6 => 6
    case _ => 7
  }

  lemma SmallWords(n: nat)
    requires n < 8
    ensures ToWord(n) == SmallWord(n)
  {
    assert ToWord(1) == 1;
    assert ToWord(2) == 2;
    assert ToWord(3) == 3;
    WordStep(2, false);
    WordStep(2, true);
    WordStep(3, false);
    WordStep(3, true);
  }

  lemma SmallBits(n: nat)
    requires n < 8
    ensures n as bv32 == Widened(SmallWord(n))
  {
    match n
    case 0 => assert 0 as bv32 == 0;
    case 1 => assert 1 as bv32 == 1;
    case 2 => assert 2 as bv32 == 2;
    case 3 => assert 3 as bv32 == 3;
    case 4 => assert 4 as bv32 == 4;
    case 5 => assert 5 as bv32 == 5;
    case 6 => assert 6 as bv32 == 6;
    case _ => assert 7 as bv32 == 7;
  }

  lemma DigitRead(name: string, i: nat, n: nat)
    requires n < 8 && CharAt(name, i) == DigitOf(n)
    ensures Digit(name, i) == Widened(ToWord(n))
  {
    SmallWords(n);
    SmallBits(n);
    assert (CharAt(name, i) as int - '0' as int) % 0x1_0000_0000 == n;
  }

  lemma HalfBits(w: bv16)
    requires w < 8
    ensures Widened(PushBit(w, false)) == Widened(w) << 1
    ensures Widened(PushBit(w, true)) == (Widened(w) << 1) + 1
  {
  }

  lemma HalfRead(name: string, n: nat, high: bool)
    requires n < 8 && name == "acc" + [DigitOf(n)] + if high then "h" else "l"
    ensures HalfReg(name) == Some(Widened(ToWord(2 * n + if high then 1 else 0)))
  {
    DigitRead(name, 3, n);
    SmallWords(n);
    WordStep(n, high);
    HalfBits(ToWord(n));
  }

  lemma HalfNumber(d: OpDef, name: string, n: nat, high: bool)
    requires n < 8 && name == Spelling(Half(n, high))
    requires d.encoder == EncAccHalf || d.encoder == EncReg
    ensures RegNumber(d, name) == Some(Widened(ToWord(2 * n + if high then 1 else 0)))
    ensures IsHalf(d, name) <==> d.encoder == EncReg
  {
    assert "acc" <= name && name[0] == 'a';
    HalfRead(name, n, high);
  }

  lemma OtherNumber(d: OpDef, r: Register)
    requires r.Exists() && Takes(d.encoder, r) && !r.Half? && !r.Special?
    ensures RegNumber(d, Spelling(r)) == Some(Widened(ToWord(r.n))) && !IsHalf(d, Spelling(r))
  {
    var name := Spelling(r);
    match r
    case Whole(n) =>
      assert "acc" <= name;
      DigitRead(name, 3, n);
    case Pointer(n) =>
      assert "ptr" <= name;
      DigitRead(name, 3, n);
    case Predicate(n) =>
      assert "pred" <= name;
      DigitRead(name, 4, n);
  }

  lemma SpecialNumbers(n: nat)
    requires n < 8 && SpecialName(n) != ""
    ensures SpecReg(SpecialName(n)) == Some(Widened(SmallWord(n)))
  {
  }

  lemma UpperNumbers(n: nat)
    requires n < 8 && SpecialName(n + 8) != ""
    ensures SpecReg(SpecialName(n + 8)) == Some(Widened(SmallWord(n) | 8))
  {
  }

  lemma PortNumbers()
    ensures SpecReg(SpecialName(30)) == Some(30) && SpecReg(SpecialName(31)) == Some(31)
  {
  }

  lemma PortWords()
    ensures ToWord(30) == 30 && ToWord(31) == 31
  {
    SmallWords(7);
    WordStep(7, true);
    WordStep(15, false);
    WordStep(15, true);
  }

  lemma EightAndUp(n: nat)
    requires n < 8
    ensures ToWord(n + 8) == ToWord(n) | 8
  {
    var m, odd := n / 2, n % 2 == 1;
    assert n == 2 * m + if odd then 1 else 0;
    WordStep(m + 4, odd);
    WordStep(m, odd);
    SmallWords(m);
    SmallWords(m + 4);
    FourAndUp(m);
    PushEight(ToWord(m), odd);
  }

  lemma PushEight(a: bv16, b: bool)
    ensures PushBit(a | 4, b) == PushBit(a, b) | 8
  {
  }

  lemma SpecialRange(n: nat)
    requires SpecialName(n) != ""
    ensures n < 16 || n == 30 || n == 31
  {
  }

  lemma SpecialNumber(n: nat)
    requires SpecialName(n) != ""
    ensures SpecReg(SpecialName(n)) == Some(Widened(ToWord(n)))
  {
    SpecialRange(n);
    if n < 8 {
      SpecialNumbers(n);
      SmallWords(n);
    } else if n < 16 {
      UpperNumbers(n - 8);
      EightAndUp(n - 8);
      SmallWords(n - 8);
    } else {
      PortNumbers();
      PortWords();
    }
  }

  // ---------------------------------------------- which registers are taken

  /** Registers are taken for fields they do not belong to in one case: `$pred`, the special register, has
      no digit where a predicate has one, and passes for a predicate. */
  predicate Mistaken(e: Encoder, r: Register) {
    e == EncPred && r == Special(13)
  }

  /** No special register's name starts like that of an accumulator or a pointer. */
  lemma SpecialStarts(name: string)
    requires SpecReg(name).Some?
    ensures |name| >= 2 && name[0] != 'a' && (name[0] == 'p' ==> name == "pred" && name[1] == 'r')
  {
    assert "retpc"[0] == 'r' && "retipc"[0] == 'r';
    assert "sp"[0] == 's' && "satctrl"[0] == 's';
    assert "mulsign"[0] == 'm' && "masksel"[0] == 'm' && "mask0"[0] == 'm' && "mask1"[0] == 'm';
    assert "modsel"[0] == 'm' && "mod0"[0] == 'm' && "mod1"[0] == 'm';
    assert "bitrev"[0] == 'b' && "bkrepcnt"[0] == 'b';
    assert "gpio2"[0] == 'g' && "gpio"[0] == 'g';
    assert "pred"[0] == 'p' && "pred"[1] == 'r';
  }

  lemma NoSpecial(name: string)
    requires |name| >= 4 && (name[0] == 'a' || (name[0] == 'p' && (name[1] == 't' || |name| == 5)))
    ensures SpecReg(name).None?
  {
    if SpecReg(name).Some? {
      SpecialStarts(name);
    }
  }

  lemma NumberedTaken(d: OpDef, r: Register)
    requires !d.encoder.EncInt? && !d.encoder.EncSymref? && r.Exists() && !r.Special?
    ensures RegNumber(d, Spelling(r)).Some? <==> Takes(d.encoder, r)
  {
    var name := Spelling(r);
    match r
    case Half(_, high) =>
      assert name[0] == 'a' && name[..3] == "acc" && CharAt(name, 4) == if high then 'h' else 'l';
      NoSpecial(name);
    case Whole(_) =>
      assert name[0] == 'a' && name[..3] == "acc" && CharAt(name, 4) == '\0';
      NoSpecial(name);
    case Pointer(_) =>
      assert name[0] == 'p' && name[1] == 't' && name[..3] == "ptr";
      NoSpecial(name);
    case Predicate(_) =>
      assert name[0] == 'p' && name[1] == 'r' && name[..4] == "pred";
      NoSpecial(name);
  }

  lemma SpecialPrefix(name: string)
    requires SpecReg(name).Some?
    ensures !("acc" <= name) && !("ptr" <= name) && ("pred" <= name <==> name == "pred")
  {
    SpecialStarts(name);
  }

  lemma PredAddress(n: nat)
    ensures SpecialName(n) == "pred" <==> n == 13
  {
  }

  lemma SpecialTaken(d: OpDef, n: nat)
    requires !d.encoder.EncInt? && !d.encoder.EncSymref? && SpecialName(n) != ""
    ensures RegNumber(d, SpecialName(n)).Some? <==> d.encoder == EncSpec || Mistaken(d.encoder, Special(n))
  {
    SpecialNumber(n);
    SpecialPrefix(SpecialName(n));
    PredAddress(n);
  }

  /** A field takes exactly the registers that can stand in it, and the mistaken one. */
  lemma RegistersTaken(d: OpDef, r: Register)
    requires !d.encoder.EncInt? && !d.encoder.EncSymref? && r.Exists()
    ensures RegNumber(d, Spelling(r)).Some? <==> Takes(d.encoder, r) || Mistaken(d.encoder, r)
  {
    if r.Special? {
      SpecialTaken(d, r.n);
    } else {
      NumberedTaken(d, r);
    }
  }

  // --------------------------------------------------------------- the field

  /** The field of a number: the number modulo the span of the field. */
  function FieldOf(d: OpDef, n: int): bv32
    requires DefOk(d)
  {
    Placed(Widened(ToWord(n % Pow2(d.width as nat))), d.offset)
  }

  lemma RegFieldCut(b: bv16, width: bv32)
    requires 1 <= width <= 16
    ensures RegField(Widened(b), width, false) == Cut(b, width)
  {
  }

  lemma IntFieldCut(value: int, width: bv32)
    requires 1 <= width <= 16
    ensures IntField(value, width) == Cut(ToWord(value % 0x1_0000), width)
  {
  }

  /** Bit 4 of a word. */
  function Marked(w: bv16): bv16 {
    w | 16
  }

  lemma MarkedPushes(a: bv16, b: bool, c: bool)
    requires a < 4
    ensures PushBit(PushBit(a | 4, b), c) == Marked(PushBit(PushBit(a, b), c)) && PushBit(PushBit(a, b), c) < 16
  {
  }

  lemma FourAndUp(m: nat)
    requires m < 4
    ensures SmallWord(m + 4) == SmallWord(m) | 4 && SmallWord(m) < 4
  {
  }

  /** The word of an accumulator half, marked as one. */
  lemma MarkedWord(n: nat, high: bool)
    requires n < 8
    ensures var half := 2 * n + if high then 1 else 0;
      ToWord(16 + half) == Marked(ToWord(half)) && ToWord(half) < 16
  {
    var m, odd := n / 2, n % 2 == 1;
    assert n == 2 * m + if odd then 1 else 0;
    WordStep(8 + n, high);
    WordStep(4 + m, odd);
    WordStep(n, high);
    WordStep(m, odd);
    SmallWords(m);
    SmallWords(m + 4);
    FourAndUp(m);
    MarkedPushes(ToWord(m), odd, high);
  }

  lemma MarkedField(w: bv16)
    requires w < 16
    ensures RegField(Widened(w), 5, true) == Widened(Marked(w))
  {
  }

  lemma HalfPiece(d: OpDef, n: nat, high: bool)
    requires n < 8 && DefOk(d) && d.width == 5
    ensures var half := 2 * n + if high then 1 else 0;
      Placed(RegField(Widened(ToWord(half)), d.width, true), d.offset) == FieldOf(d, 16 + half)
  {
    var half := 2 * n + if high then 1 else 0;
    MarkedWord(n, high);
    MarkedField(ToWord(half));
    WholeField(d, 16 + half);
  }

  lemma WholeField(d: OpDef, n: nat)
    requires DefOk(d) && d.width == 5 && n < 32
    ensures FieldOf(d, n) == Placed(Widened(ToWord(n)), d.offset)
  {
    SpanOfFive(d.width);
    SmallRemainder(n);
  }

  lemma SpanOfFive(width: bv32)
    requires width == 5
    ensures Pow2(width as nat) == 32
  {
    assert Pow2(5) == 32;
  }

  lemma SmallRemainder(n: nat)
    requires n < 32
    ensures n % 32 == n
  {
  }

  lemma NumberPiece(d: OpDef, number: nat)
    requires DefOk(d)
    ensures Placed(RegField(Widened(ToWord(number)), d.width, false), d.offset) == FieldOf(d, number)
  {
    RegFieldCut(ToWord(number), d.width);
    CutIsModulo(number, d.width as nat, d.width);
  }

  lemma PieceOfNumber(d: OpDef, op: Operand, syms: Symbols, number: nat)
    requires DefOk(d) && !d.encoder.EncInt? && !d.encoder.EncSymref?
    requires RegNumber(d, op.name) == Some(Widened(ToWord(number))) && !IsHalf(d, op.name)
    ensures Piece(d, op, syms) == Some(FieldOf(d, number))
  {
    NumberPiece(d, number);
  }

  lemma MarkedPiece(d: OpDef, op: Operand, syms: Symbols, n: nat, high: bool)
    requires n < 8 && DefOk(d) && d.width == 5 && d.encoder == EncReg
    requires RegNumber(d, op.name) == Some(Widened(ToWord(2 * n + if high then 1 else 0))) && IsHalf(d, op.name)
    ensures Piece(d, op, syms) == Some(FieldOf(d, 16 + 2 * n + if high then 1 else 0))
  {
    HalfPiece(d, n, high);
  }

  lemma HalfMarked(d: OpDef, op: Operand, n: nat, high: bool, syms: Symbols)
    requires n < 8 && DefOk(d) && d.width == 5 && d.encoder == EncReg && op.name == Spelling(Half(n, high))
    ensures Piece(d, op, syms) == Some(FieldOf(d, ReadAs(EncReg, Half(n, high))))
  {
    HalfNumber(d, op.name, n, high);
    MarkedPiece(d, op, syms, n, high);
  }

  lemma HalfAlone(d: OpDef, op: Operand, n: nat, high: bool, syms: Symbols)
    requires n < 8 && DefOk(d) && d.encoder == EncAccHalf && op.name == Spelling(Half(n, high))
    ensures Piece(d, op, syms) == Some(FieldOf(d, ReadAs(EncAccHalf, Half(n, high))))
  {
    HalfNumber(d, op.name, n, high);
    PieceOfNumber(d, op, syms, ReadAs(EncAccHalf, Half(n, high)));
  }

  lemma HalfRegister(d: OpDef, op: Operand, r: Register, syms: Symbols)
    requires DefOk(d) && (d.encoder == EncReg ==> d.width == 5)
    requires r.Half? && r.Exists() && Takes(d.encoder, r) && op.name == Spelling(r)
    ensures Piece(d, op, syms) == Some(FieldOf(d, ReadAs(d.encoder, r)))
  {
    assert r == Half(r.n, r.high);
    if d.encoder == EncReg {
      HalfMarked(d, op, r.n, r.high, syms);
    } else {
      HalfAlone(d, op, r.n, r.high, syms);
    }
  }

  lemma OtherRegister(d: OpDef, op: Operand, r: Register, syms: Symbols)
    requires DefOk(d) && !r.Half? && r.Exists() && Takes(d.encoder, r) && op.name == Spelling(r)
    ensures Piece(d, op, syms) == Some(FieldOf(d, r.n))
  {
    if r.Special? {
      SpecialNumber(r.n);
    } else {
      OtherNumber(d, r);
    }
    PieceOfNumber(d, op, syms, r.n);
  }

  /** A register's field is the number a unit reads there, as far as the field is wide enough for it. */
  lemma RegisterPiece(d: OpDef, op: Operand, r: Register, syms: Symbols)
    requires DefOk(d) && (d.encoder == EncReg ==> d.width == 5)
    requires r.Exists() && Takes(d.encoder, r) && op.name == Spelling(r)
    ensures Piece(d, op, syms) == Some(FieldOf(d, ReadAs(d.encoder, r)))
  {
    if r.Half? {
      HalfRegister(d, op, r, syms);
    } else {
      OtherRegister(d, op, r, syms);
    }
  }

  lemma NoDigit()
    ensures Digit("pred", 4) == 0xFFFF_FFD0
  {
    assert CharAt("pred", 4) == '\0';
    assert (0 - '0' as int) % 0x1_0000_0000 == 0xFFFF_FFD0;
  }

  lemma NoDigitCut()
    ensures RegField(0xFFFF_FFD0, 2, false) == 0
  {
  }

  /** The mistaken predicate assembles as the first one, which the core holds at one. */
  lemma MistakenIsFirst(d: OpDef, op: Operand, first: Operand, syms: Symbols)
    requires DefOk(d) && d.encoder == EncPred && d.width == 2
    requires op.name == Spelling(Special(13)) && first.name == Spelling(Predicate(0))
    ensures Piece(d, op, syms) == Piece(d, first, syms)
  {
    NoDigit();
    NoDigitCut();
    PredAddress(13);
    OtherRegister(d, first, Predicate(0), syms);
    assert ToWord(0) == 0;
  }

  lemma QuotientGone(x: int, p: nat, q: int, r: nat)
    requires r < p && x == q * p + r
    ensures x % p == r
  {
    MulApart(p, q - x / p);
  }

  lemma ModOfMultiple(value: int, p: nat, q: nat)
    requires p > 0 && q > 0 && q * p > 0
    ensures value % (q * p) % p == value % p
  {
    var a, b := value / (q * p), value % (q * p);
    assert value == a * (q * p) + b && b == (b / p) * p + b % p;
    assert a * (q * p) == (a * q) * p;
    assert (a * q + b / p) * p == (a * q) * p + (b / p) * p;
    QuotientGone(value, p, a * q + b / p, b % p);
  }

  lemma ModTwice(value: int, k: nat)
    requires k <= 16
    ensures value % 0x1_0000 % Pow2(k) == value % Pow2(k)
  {
    Pow16();
    Pow2Product(16 - k, k);
    ModOfMultiple(value, Pow2(k), Pow2(16 - k));
  }

  lemma {:induction false} Pow2Product(j: nat, k: nat)
    ensures Pow2(j) * Pow2(k) == Pow2(j + k)
  {
    if j > 0 {
      Pow2Product(j - 1, k);
      assert (2 * Pow2(j - 1)) * Pow2(k) == 2 * (Pow2(j - 1) * Pow2(k));
    }
  }

  /** An integer's field is the integer modulo the span of the field, negative ones included. */
  lemma IntegerPiece(d: OpDef, op: Operand, syms: Symbols)
    requires DefOk(d) && d.encoder == EncInt && InRange(d, op.offset)
    ensures Piece(d, op, syms) == Some(FieldOf(d, op.offset))
  {
    IntFieldModulo(op.offset, d.width);
  }

  lemma IntFieldModulo(value: int, width: bv32)
    requires 1 <= width <= 16
    ensures IntField(value, width) == Widened(ToWord(value % Pow2(width as nat)))
  {
    IntFieldCut(value, width);
    CutIsModulo(value % 0x1_0000, width as nat, width);
    ModTwice(value, width as nat);
  }

  // ------------------------------------------------- in the table's own rows

  /** Where a pointer or an accumulator half may stand, the field has five bits. */
  ghost predicate FiveBits(r: Row) {
    forall k: nat :: k < |r.defs| && r.defs[k].encoder == EncReg ==> r.defs[k].width == 5
  }

  lemma LogicFive(i: nat)
    requires 0 <= i < 15
    ensures FiveBits(RowAt(i))
  {
  }

  lemma ArithmeticFive(i: nat)
    requires 15 <= i < 31
    ensures FiveBits(RowAt(i))
  {
  }

  lemma LoadFive(i: nat)
    requires 31 <= i < 47
    ensures FiveBits(RowAt(i))
  {
  }

  lemma StoreFive(i: nat)
    requires 47 <= i < 60
    ensures FiveBits(RowAt(i))
  {
  }

  lemma MoveFive(i: nat)
    requires 60 <= i < 73
    ensures FiveBits(RowAt(i))
  {
  }

  lemma CallFive(i: nat)
    requires 73 <= i < 89
    ensures FiveBits(RowAt(i))
  {
  }

  lemma RowFive(i: nat)
    requires i < ROWS
    ensures FiveBits(RowAt(i))
  {
    if i < 15 {
      LogicFive(i);
    } else if i < 31 {
      ArithmeticFive(i);
    } else if i < 47 {
      LoadFive(i);
    } else if i < 60 {
      StoreFive(i);
    } else if i < 73 {
      MoveFive(i);
    } else {
      CallFive(i);
    }
  }

  /** A register of an encoded instruction stands in its field of the word as the number that the units
      read there, cut to the field's width. */
  lemma RegisterFieldHolds(
      i: nat, inst: Instruction, notLast: bool, syms: Symbols, c: Code, next: bv16, k: nat, r: Register)
    requires i < ROWS && RowOk(RowAt(i)) && TryRow(RowAt(i), inst, notLast, syms) == Emit(c)
    requires k < |RowAt(i).defs| == |inst.ops|
    requires r.Exists() && Takes(RowAt(i).defs[k].encoder, r) && inst.ops[k].name == Spelling(r)
    ensures var d := RowAt(i).defs[k];
      DefOk(d) && And(WordOf(c, next), FieldMask(d)) == FieldOf(d, ReadAs(d.encoder, r))
  {
    OperandsReadBack(i, inst, notLast, syms, c, next, k);
    RowFive(i);
    RegisterPiece(RowAt(i).defs[k], inst.ops[k], r, syms);
  }

  /** An integer of an encoded instruction stands in its field modulo the span of the field, and is below
      that span: a negative one of any size is let through. */
  lemma IntegerFieldHolds(i: nat, inst: Instruction, notLast: bool, syms: Symbols, c: Code, next: bv16, k: nat)
    requires i < ROWS && RowOk(RowAt(i)) && TryRow(RowAt(i), inst, notLast, syms) == Emit(c)
    requires k < |RowAt(i).defs| == |inst.ops| && RowAt(i).defs[k].encoder == EncInt
    ensures var d, value := RowAt(i).defs[k], inst.ops[k].offset;
      && DefOk(d) && value < Pow2(d.width as nat)
      && And(WordOf(c, next), FieldMask(d)) == FieldOf(d, value)
  {
    OperandsReadBack(i, inst, notLast, syms, c, next, k);
    IntegerPiece(RowAt(i).defs[k], inst.ops[k], syms);
    SpanIs(RowAt(i).defs[k].width);
  }

  /** An integer is taken exactly if it is below the span of its field, however far below. */
  lemma IntegersTaken(d: OpDef, op: Operand)
    requires DefOk(d) && d.encoder == EncInt
    ensures Accepts(d, op) <==> op.offset < Pow2(d.width as nat)
  {
    SpanIs(d.width);
  }

  lemma SpanIs(width: bv32)
    requires 1 <= width <= 16
    ensures ((1 as bv32) << width) as int == Pow2(width as nat)
  {
    if width <= 8 {
      NarrowSpan(width);
    } else {
      WideSpan(width - 8);
    }
  }

  lemma NarrowSpan(width: bv32)
    requires 1 <= width <= 8
    ensures ((1 as bv32) << width) as int == Pow2(width as nat)
  {
    match width
    case 1 => assert Pow2(1) == 2;
    case 2 => assert Pow2(2) == 4;
    case 3 => assert Pow2(3) == 8;
    case 4 => assert Pow2(4) == 16;
    case 5 => assert Pow2(5) == 32;
    case 6 => assert Pow2(6) == 64;
    case 7 => assert Pow2(7) == 128;
    case _ => assert Pow2(8) == 256;
  }

  lemma WideSpan(width: bv32)
    requires 1 <= width <= 8
    ensures ((1 as bv32) << (width + 8)) as int == Pow2(width as nat + 8)
  {
    match width
    case 1 => assert Pow2(9) == 512;
    case 2 => assert Pow2(10) == 1024;
    case 3 => assert Pow2(11) == 2048;
    case 4 => assert Pow2(12) == 4096;
    case 5 => assert Pow2(13) == 8192;
    case 6 => assert Pow2(14) == 16384;
    case 7 => assert Pow2(15) == 32768;
    case _ => Pow16();
  }

  // ------------------------------------- halves that a multiplication cannot name

  /** The rows of `mpy16` and `mac16`. */
  predicate MultiplyIndex(i: nat) {
    i == 19 || i == 20
  }

  lemma MultiplyDefs(i: nat)
    requires MultiplyIndex(i)
    ensures RowAt(i).defs == [AccHalf(7, 3), AccHalf(10, 3), Acc(13, 3)]
  {
  }

  lemma HighHalvesCut(d: OpDef, n: nat, high: bool)
    requires n < 4 && DefOk(d) && d.width == 3
    ensures FieldOf(d, ReadAs(EncAccHalf, Half(n + 4, high))) == FieldOf(d, ReadAs(EncAccHalf, Half(n, high)))
  {
    assert Pow2(3) == 8;
  }

  /** A factor's field has three bits, for which sixteen halves are too many: `acc4` to `acc7` assemble as
      `acc0` to `acc3`, without a word of warning. */
  lemma FactorsAlias(i: nat, inst: Instruction, notLast: bool, syms: Symbols, k: nat, n: nat, high: bool)
    requires MultiplyIndex(i) && RowOk(RowAt(i)) && k < 2 && k < |inst.ops| && n < 4
    requires inst.ops[k].name == Spelling(Half(n + 4, high))
    ensures TryRow(RowAt(i), inst, notLast, syms)
      == TryRow(RowAt(i), inst.(ops := inst.ops[k := inst.ops[k].(name := Spelling(Half(n, high)))]), notLast, syms)
  {
    MultiplyDefs(i);
    var d, op := RowAt(i).defs[k], inst.ops[k];
    var renamed := op.(name := Spelling(Half(n, high)));
    HalfRegister(d, op, Half(n + 4, high), syms);
    HalfRegister(d, renamed, Half(n, high), syms);
    HighHalvesCut(d, n, high);
    SameAnswer(RowAt(i), inst, k, renamed, notLast, syms);
  }

  lemma {:induction false} MatchRenamed(r: Row, ops: seq<Operand>, k: nat, op: Operand, j: nat)
    requires k < |ops| && op.kind == ops[k].kind
    ensures OperandMatch(r, ops[k := op], j) == OperandMatch(r, ops, j)
    decreases |r.defs| - j
  {
    if j < |r.defs| && j < |ops| {
      MatchRenamed(r, ops, k, op, j + 1);
    }
  }

  lemma SamePieces(r: Row, ops: seq<Operand>, k: nat, op: Operand, syms: Symbols)
    requires RowOk(r) && |ops| == |r.defs| && k < |ops|
    requires Piece(r.defs[k], op, syms) == Piece(r.defs[k], ops[k], syms)
    ensures Pieces(r, ops[k := op], syms) == Pieces(r, ops, syms)
  {
  }

  lemma SamePattern(r: Row, inst: Instruction, renamed: Instruction, notLast: bool, syms: Symbols)
    requires RowOk(r) && |inst.ops| == |r.defs| == |renamed.ops|
    requires Pieces(r, renamed.ops, syms) == Pieces(r, inst.ops, syms)
    requires renamed == inst.(ops := renamed.ops)
    ensures Pattern(r, renamed, notLast, syms) == Pattern(r, inst, notLast, syms)
  {
  }

  lemma SameAnswer(r: Row, inst: Instruction, k: nat, op: Operand, notLast: bool, syms: Symbols)
    requires RowOk(r) && k < |inst.ops| && k < |r.defs| && op.kind == inst.ops[k].kind
    requires Piece(r.defs[k], op, syms) == Piece(r.defs[k], inst.ops[k], syms)
    ensures TryRow(r, inst, notLast, syms) == TryRow(r, inst.(ops := inst.ops[k := op]), notLast, syms)
  {
    MatchRenamed(r, inst.ops, k, op, 0);
    var renamed := inst.(ops := inst.ops[k := op]);
    if r.mnemonic == inst.mnemonic && OperandMatch(r, inst.ops, 0) == Matches {
      MatchLength(r, inst.ops, 0);
      SamePieces(r, inst.ops, k, op, syms);
      SamePattern(r, inst, renamed, notLast, syms);
      Answered(r, inst, notLast, syms);
      Answered(r, renamed, notLast, syms);
    }
  }

  lemma Answered(r: Row, inst: Instruction, notLast: bool, syms: Symbols)
    requires RowOk(r) && r.mnemonic == inst.mnemonic
    requires |inst.ops| == |r.defs| && OperandMatch(r, inst.ops, 0) == Matches
    ensures TryRow(r, inst, notLast, syms)
      == match Pattern(r, inst, notLast, syms)
         case None => Skip
         case Some(p) => Emit(CodeFor(p, Occupies32(r, inst)))
  {
  }
}

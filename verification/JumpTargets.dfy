/** Jumps go where their labels are: from the operand of an assembled instruction to the target the
    control unit sees. */
module JumpTargets {
  import opened Words
  import opened WordBits
  import opened Vliwdec
  import opened Encoding
  import opened InsnTable
  import opened UniqueEncoding
  import opened Disasm
  import opened InsnWords
  import Pcu

  /** The unit bits and the bit of the 32-bit encoding space. */
  const UNIT_BITS: bv32 := 0x2000_000C

  /** A row of the 32-bit encoding space for the control unit. */
  predicate IsControlRow(r: Row) {
    And(r.pattern, UNIT_BITS) == 0x2000_0000
  }

  /** No row's operands touch these bits, and the control rows have just a symbol, in bits 23..8. */
  ghost predicate Targeted(r: Row) {
    && Apart(r)
    && And(OperandBits(r, |r.defs|), UNIT_BITS) == 0
    && (IsControlRow(r) ==> r.wide && r.defs == [Sym(8, 16)])
  }

  lemma TargetedIf(r: Row, bits: bv32)
    requires Shaped(r, bits) && And(bits, UNIT_BITS) == 0
    requires !IsControlRow(r) || (r.wide && r.defs == [Sym(8, 16)])
    ensures Targeted(r)
  {
  }

  lemma LogicRowTargets(i: nat)
    requires 0 <= i < 8
    ensures Targeted(LogicRow(i))
  {
    LogicRowShape();
    match i
    case 0 => TargetedIf(LogicRow(0), 0x0);
    case 1 => TargetedIf(LogicRow(1), 0x1DDC00);
    case 2 => TargetedIf(LogicRow(2), 0x1DDC00);
    case 3 => TargetedIf(LogicRow(3), 0x1DDC00);
    case 4 => TargetedIf(LogicRow(4), 0x1C1C00);
    case 5 => TargetedIf(LogicRow(5), 0x1DFC00);
    case 6 => TargetedIf(LogicRow(6), 0x1DFC00);
    case _ => TargetedIf(LogicRow(7), 0x1DFC00);
  }

  lemma HalfLogicRowTargets(i: nat)
    requires 8 <= i < 15
    ensures Targeted(HalfLogicRow(i))
  {
    HalfLogicRowShape();
    match i
    case 8 => TargetedIf(HalfLogicRow(8), 0x1FFE00);
    case 9 => TargetedIf(HalfLogicRow(9), 0x1FFE00);
    case 10 => TargetedIf(HalfLogicRow(10), 0x1FFE00);
    case 11 => TargetedIf(HalfLogicRow(11), 0x1E1E00);
    case 12 => TargetedIf(HalfLogicRow(12), 0x1FFE00);
    case 13 => TargetedIf(HalfLogicRow(13), 0x1FFE00);
    case _ => TargetedIf(HalfLogicRow(14), 0x1FFE00);
  }

  lemma ArithmeticRowTargets(i: nat)
    requires 15 <= i < 21
    ensures Targeted(ArithmeticRow(i))
  {
    ArithmeticRowShape();
    match i
    case 15 => TargetedIf(ArithmeticRow(15), 0xFF80);
    case 16 => TargetedIf(ArithmeticRow(16), 0xFF80);
    case 17 => TargetedIf(ArithmeticRow(17), 0x7F80);
    case 18 => TargetedIf(ArithmeticRow(18), 0x7F80);
    case 19 => TargetedIf(ArithmeticRow(19), 0xFF80);
    case _ => TargetedIf(ArithmeticRow(20), 0xFF80);
  }

  lemma CompareRowTargets(i: nat)
    requires 21 <= i < 31
    ensures Targeted(CompareRow(i))
  {
    CompareRowShape();
    match i
    case 21 => TargetedIf(CompareRow(21), 0x301FE00);
    case 22 => TargetedIf(CompareRow(22), 0x301FE00);
    case 23 => TargetedIf(CompareRow(23), 0x301FE00);
    case 24 => TargetedIf(CompareRow(24), 0x301FE00);
    case 25 => TargetedIf(CompareRow(25), 0x301FE00);
    case 26 => TargetedIf(CompareRow(26), 0x301FE00);
    case 27 => TargetedIf(CompareRow(27), 0x301FE00);
    case 28 => TargetedIf(CompareRow(28), 0x301FE00);
    case 29 => TargetedIf(CompareRow(29), 0x301FE00);
    case _ => TargetedIf(CompareRow(30), 0x301FE00);
  }

  lemma MemoryRowTargets(i: nat)
    requires 31 <= i < 39
    ensures Targeted(MemoryRow(i))
  {
    MemoryRowShape();
    match i
    case 31 => TargetedIf(MemoryRow(31), 0xFF00);
    case 32 => TargetedIf(MemoryRow(32), 0xFF00);
    case 33 => TargetedIf(MemoryRow(33), 0xFF00);
    case 34 => TargetedIf(MemoryRow(34), 0xFF00);
    case 35 => TargetedIf(MemoryRow(35), 0x3F00);
    case 36 => TargetedIf(MemoryRow(36), 0x3F00);
    case 37 => TargetedIf(MemoryRow(37), 0x3F00);
    case _ => TargetedIf(MemoryRow(38), 0x3F00);
  }

  lemma ImmediateRowTargets(i: nat)
    requires 39 <= i < 47
    ensures Targeted(ImmediateRow(i))
  {
    ImmediateRowShape();
    match i
    case 39 => TargetedIf(ImmediateRow(39), 0xFFFFF00);
    case 40 => TargetedIf(ImmediateRow(40), 0xFFFFF00);
    case 41 => TargetedIf(ImmediateRow(41), 0xFFFFF00);
    case 42 => TargetedIf(ImmediateRow(42), 0xFFFFF00);
    case 43 => TargetedIf(ImmediateRow(43), 0xFFFFF00);
    case 44 => TargetedIf(ImmediateRow(44), 0xFFFFF00);
    case 45 => TargetedIf(ImmediateRow(45), 0xFFFEE00);
    case _ => TargetedIf(ImmediateRow(46), 0xFFFEE00);
  }

  lemma OffsetRowTargets(i: nat)
    requires 47 <= i < 52
    ensures Targeted(OffsetRow(i))
  {
    OffsetRowShape();
    match i
    case 47 => TargetedIf(OffsetRow(47), 0xFFFFF00);
    case 48 => TargetedIf(OffsetRow(48), 0xFFFFF00);
    case 49 => TargetedIf(OffsetRow(49), 0xFFFEE00);
    case 50 => TargetedIf(OffsetRow(50), 0xFFFEE00);
    case _ => TargetedIf(OffsetRow(51), 0xFFFE000);
  }

  lemma StackRowTargets(i: nat)
    requires 52 <= i < 60
    ensures Targeted(StackRow(i))
  {
    StackRowShape();
    match i
    case 52 => TargetedIf(StackRow(52), 0x7FF00);
    case 53 => TargetedIf(StackRow(53), 0x7FF00);
    case 54 => TargetedIf(StackRow(54), 0xF800);
    case 55 => TargetedIf(StackRow(55), 0xF800);
    case 56 => TargetedIf(StackRow(56), 0x7000);
    case 57 => TargetedIf(StackRow(57), 0xF800);
    case 58 => TargetedIf(StackRow(58), 0xF800);
    case _ => TargetedIf(StackRow(59), 0x7000);
  }

  lemma MoveRowTargets(i: nat)
    requires 60 <= i < 67
    ensures Targeted(MoveRow(i))
  {
    MoveRowShape();
    match i
    case 60 => TargetedIf(MoveRow(60), 0xFE00);
    case 61 => TargetedIf(MoveRow(61), 0xFE00);
    case 62 => TargetedIf(MoveRow(62), 0x7E00);
    case 63 => TargetedIf(MoveRow(63), 0xFF00);
    case 64 => TargetedIf(MoveRow(64), 0x1FF00);
    case 65 => TargetedIf(MoveRow(65), 0x1FF00);
    case _ => TargetedIf(MoveRow(66), 0x1FFFF00);
  }

  lemma BranchRowTargets(i: nat)
    requires 67 <= i < 73
    ensures Targeted(BranchRow(i))
  {
    BranchRowShape();
    match i
    case 67 => TargetedIf(BranchRow(67), 0xFFFF00);
    case 68 => TargetedIf(BranchRow(68), 0xFFFF00);
    case 69 => TargetedIf(BranchRow(69), 0xFFFF00);
    case 70 => TargetedIf(BranchRow(70), 0x700);
    case 71 => TargetedIf(BranchRow(71), 0x700);
    case _ => TargetedIf(BranchRow(72), 0x700);
  }

  lemma CallRowTargets(i: nat)
    requires 73 <= i < 79
    ensures Targeted(CallRow(i))
  {
    CallRowShape();
    match i
    case 73 => TargetedIf(CallRow(73), 0xFFFF00);
    case 74 => TargetedIf(CallRow(74), 0xFFFF00);
    case 75 => TargetedIf(CallRow(75), 0xFFFF00);
    case 76 => TargetedIf(CallRow(76), 0x700);
    case 77 => TargetedIf(CallRow(77), 0x700);
    case _ => TargetedIf(CallRow(78), 0x700);
  }

  lemma ReturnRowTargets(i: nat)
    requires 79 <= i < 89
    ensures Targeted(ReturnRow(i))
  {
    ReturnRowShape();
    match i
    case 79 => TargetedIf(ReturnRow(79), 0x0);
    case 80 => TargetedIf(ReturnRow(80), 0x0);
    case 81 => TargetedIf(ReturnRow(81), 0x0);
    case 82 => TargetedIf(ReturnRow(82), 0x0);
    case 83 => TargetedIf(ReturnRow(83), 0x0);
    case 84 => TargetedIf(ReturnRow(84), 0x0);
    case 85 => TargetedIf(ReturnRow(85), 0x0);
    case 86 => TargetedIf(ReturnRow(86), 0x0);
    case 87 => TargetedIf(ReturnRow(87), 0xFFFF00);
    case _ => TargetedIf(ReturnRow(88), 0x0);
  }

  lemma RowTargets(i: nat)
    requires i < ROWS
    ensures Targeted(RowAt(i))
  {
    if i < 8 {
      LogicRowTargets(i);
    } else if i < 15 {
      HalfLogicRowTargets(i);
    } else if i < 21 {
      ArithmeticRowTargets(i);
    } else if i < 31 {
      CompareRowTargets(i);
    } else if i < 39 {
      MemoryRowTargets(i);
    } else if i < 47 {
      ImmediateRowTargets(i);
    } else if i < 52 {
      OffsetRowTargets(i);
    } else if i < 60 {
      StackRowTargets(i);
    } else if i < 67 {
      MoveRowTargets(i);
    } else if i < 73 {
      BranchRowTargets(i);
    } else if i < 79 {
      CallRowTargets(i);
    } else {
      ReturnRowTargets(i);
    }
  }

  // --------------------------------------------------- from word to operand

  lemma PredKeepsUnit(p: bv32, neg: bool, reg: bv32)
    ensures And(Predicated(p, neg, reg), UNIT_BITS) == And(p, UNIT_BITS)
  {
  }

  lemma PutPredKeepsUnit(p: bv32, inst: Instruction)
    requires PutPred(p, inst).Some?
    ensures And(PutPred(p, inst).value, UNIT_BITS) == And(p, UNIT_BITS)
  {
    if inst.pred.Some? {
      PredKeepsUnit(p, inst.predNeg, TwoBits(Atoi4(inst.pred.value, 4, 0)));
    }
  }

  lemma StartKeepsUnit(pattern: bv32, notLast: bool)
    ensures And(Started(pattern, notLast), UNIT_BITS) == And(pattern, UNIT_BITS)
  {
  }

  lemma WordKeepsUnit(p: bv32, next: bv16)
    ensures And(WordOf(CodeFor(p, true), next), UNIT_BITS) == And(p, UNIT_BITS)
  {
  }

  lemma SmallerPart(piece: bv32, f: bv32, bits: bv32, mask: bv32)
    requires And(piece, f) == piece && And(f, bits) == f && And(bits, mask) == 0
    ensures And(piece, mask) == 0
  {
  }

  /** The unit bits of the finished pattern are the row's. */
  lemma BodyUnit(r: Row, inst: Instruction, notLast: bool, syms: Symbols)
    requires Targeted(r) && |inst.ops| == |r.defs| && Body(r, inst, notLast, syms).Some?
    ensures And(Body(r, inst, notLast, syms).value, UNIT_BITS) == And(r.pattern, UNIT_BITS)
  {
    var pieces := Pieces(r, inst.ops, syms);
    forall j: nat | j < |pieces| && pieces[j].Some?
      ensures And(pieces[j].value, UNIT_BITS) == 0
    {
      PieceFits(r.defs[j], inst.ops[j], syms);
      FieldInOperandBits(r, j, |r.defs|);
      SmallerPart(pieces[j].value, FieldMask(r.defs[j]), OperandBits(r, |r.defs|), UNIT_BITS);
    }
    PutAllOutside(StartOf(r, notLast), pieces, |pieces|, UNIT_BITS);
    StartKeepsUnit(r.pattern, notLast);
  }

  lemma CodeUnit(r: Row, inst: Instruction, notLast: bool, syms: Symbols, c: Code)
    requires Targeted(r) && TryRow(r, inst, notLast, syms) == Emit(c) && c.Long?
    ensures And(WordOf(c, 0), UNIT_BITS) == And(r.pattern, UNIT_BITS)
  {
    MatchLength(r, inst.ops, 0);
    BodyUnit(r, inst, notLast, syms);
    var p := Body(r, inst, notLast, syms).value;
    PutPredKeepsUnit(p, inst);
    WordKeepsUnit(PutPred(p, inst).value, 0);
  }

  /** The wire of a 32-bit instruction. */
  function WireOf(c: Code): Wire
    requires c.Long?
  {
    Wire(c.lo, c.hi)
  }

  lemma WireUnit(lo: bv16, hi: bv16)
    requires Pcu.ForPcu(Wire(lo, hi)) && Pcu.EncBit(Wire(lo, hi))
    ensures And(Joined(lo, hi), UNIT_BITS) == 0x2000_0000
  {
  }

  lemma ImmediateFromWord(lo: bv16, hi: bv16, x: bv16)
    requires And(Joined(lo, hi), Placed(Mask(16), 8)) == Placed((x as bv32) & Mask(16), 8)
    ensures Pcu.ImmBits(Wire(lo, hi)) == x
  {
  }

  lemma SymbolPiece(op: Operand, table: Table)
    requires Piece(Sym(8, 16), op, Known(table)).Some?
    ensures Lookup(table, op.name).Some?
    ensures Piece(Sym(8, 16), op, Known(table)).value
      == Placed((ToWord(Lookup(table, op.name).value) as bv32) & Mask(16), 8)
  {
  }

  /** A word that the control unit would take for a 32-bit jump, call or loop. */
  predicate IsControl(c: Code) {
    c.Long? && Pcu.ForPcu(WireOf(c)) && Pcu.Fields(WireOf(c)).Enc32()
  }

  lemma ControlRow(r: Row, inst: Instruction, notLast: bool, syms: Symbols, c: Code)
    requires Targeted(r) && TryRow(r, inst, notLast, syms) == Emit(c) && IsControl(c)
    ensures r.wide && r.defs == [Sym(8, 16)] && |inst.ops| == 1 && inst.ops[0].kind == SymbolRef
  {
    CodeUnit(r, inst, notLast, syms, c);
    WireUnit(c.lo, c.hi);
    MatchLength(r, inst.ops, 0);
  }

  lemma ControlTarget(r: Row, inst: Instruction, notLast: bool, table: Table, c: Code)
    requires Apart(r) && TryRow(r, inst, notLast, Known(table)) == Emit(c) && c.Long?
    requires r.defs == [Sym(8, 16)] && |inst.ops| == 1
    ensures Lookup(table, inst.ops[0].name) == Some(Pcu.Fields(WireOf(c)).imm)
  {
    OperandReadBack(r, inst, notLast, Known(table), c, 0, 0);
    SymbolPiece(inst.ops[0], table);
    var a := Lookup(table, inst.ops[0].name).value;
    ImmediateFromWord(c.lo, c.hi, ToWord(a));
    AddrRoundTrip(a);
  }

  /** Bits 25..24 and 7..4: delay slots and instruction type. */
  const KIND_BITS: bv32 := 0x0300_00F0

  lemma PutPredKeepsKind(p: bv32, inst: Instruction)
    requires PutPred(p, inst).Some?
    ensures And(PutPred(p, inst).value, KIND_BITS) == And(p, KIND_BITS)
  {
    if inst.pred.Some? {
      PredKeepsKind(p, inst.predNeg, TwoBits(Atoi4(inst.pred.value, 4, 0)));
    }
  }

  lemma PredKeepsKind(p: bv32, neg: bool, reg: bv32)
    ensures And(Predicated(p, neg, reg), KIND_BITS) == And(p, KIND_BITS)
  {
  }

  lemma StartKeepsKind(pattern: bv32, notLast: bool)
    ensures And(Started(pattern, notLast), KIND_BITS) == And(pattern, KIND_BITS)
  {
  }

  lemma WordKeepsKind(p: bv32, next: bv16)
    ensures And(WordOf(CodeFor(p, true), next), KIND_BITS) == And(p, KIND_BITS)
  {
  }

  lemma FieldOffKind()
    ensures And(FieldMask(Sym(8, 16)), KIND_BITS) == 0
  {
  }

  lemma CodeKind(r: Row, inst: Instruction, notLast: bool, syms: Symbols, c: Code)
    requires Apart(r) && r.wide && r.defs == [Sym(8, 16)] && |inst.ops| == 1
    requires TryRow(r, inst, notLast, syms) == Emit(c)
    ensures c.Long? && And(WordOf(c, 0), KIND_BITS) == And(r.pattern, KIND_BITS)
  {
    MatchLength(r, inst.ops, 0);
    var p, pieces := Body(r, inst, notLast, syms).value, Pieces(r, inst.ops, syms);
    PieceFits(r.defs[0], inst.ops[0], syms);
    FieldOffKind();
    PartDisjoint(pieces[0].value, FieldMask(Sym(8, 16)), KIND_BITS);
    PutAllOutside(StartOf(r, notLast), pieces, 1, KIND_BITS);
    StartKeepsKind(r.pattern, notLast);
    PutPredKeepsKind(p, inst);
    WordKeepsKind(PutPred(p, inst).value, 0);
  }

  lemma KindFromWord(lo: bv16, hi: bv16, kind: bv32)
    requires And(Joined(lo, hi), KIND_BITS) == kind && Wide(lo) && Pcu.EncBit(Wire(lo, hi))
    ensures kind & 0xF0 == 0x10 ==> Pcu.TypeOf(Wire(lo, hi)) == Pcu.Bkrep
    ensures kind & 0xF0 == 0x20 ==> Pcu.TypeOf(Wire(lo, hi)) == Pcu.CallAbs
    ensures kind & 0xF0 == 0x40 ==> Pcu.TypeOf(Wire(lo, hi)) == Pcu.JumpAbs
    ensures kind >> 24 == 0 ==> Pcu.SlotsOf(Wire(lo, hi)) == 0
    ensures kind >> 24 == 1 ==> Pcu.SlotsOf(Wire(lo, hi)) == 1
    ensures kind >> 24 == 2 ==> Pcu.SlotsOf(Wire(lo, hi)) == 2
  {
  }

  /** What the mnemonics of the control rows mean to the control unit. */
  function MeaningOf(m: Mnemonic): Option<(Pcu.IType, nat)> {
    match m
    case Bra => Some((Pcu.JumpAbs, 0))
    case Bra1ds => Some((Pcu.JumpAbs, 1))
    case Bra2ds => Some((Pcu.JumpAbs, 2))
    case Call => Some((Pcu.CallAbs, 0))
    case Call1ds => Some((Pcu.CallAbs, 1))
    case Call2ds => Some((Pcu.CallAbs, 2))
    case Bkrep => Some((Pcu.Bkrep, 0))
    case _ => None
  }

  /** The kind bits of the control rows. */
  function KindOf(m: Mnemonic): bv32 {
    match m
    case Bra => 0x40
    case Bra1ds => 0x100_0040
    case Bra2ds => 0x200_0040
    case Call => 0x20
    case Call1ds => 0x100_0020
    case Call2ds => 0x200_0020
    case _ => 0x10
  }

  lemma KindMeans(m: Mnemonic, lo: bv16, hi: bv16)
    requires MeaningOf(m).Some? && And(Joined(lo, hi), KIND_BITS) == KindOf(m)
    requires Wide(lo) && Pcu.EncBit(Wire(lo, hi))
    ensures MeaningOf(m) == Some((Pcu.TypeOf(Wire(lo, hi)), Pcu.SlotsOf(Wire(lo, hi))))
  {
    KindFromWord(lo, hi, KindOf(m));
  }

  predicate ControlIndex(i: nat) {
    67 <= i <= 69 || 73 <= i <= 75 || i == 87
  }

  /** A control row, with the bits its mnemonic stands for. */
  predicate SaysMnemonic(r: Row) {
    && r.wide && r.defs == [Sym(8, 16)] && MeaningOf(r.mnemonic).Some?
    && And(r.pattern, KIND_BITS) == KindOf(r.mnemonic) && And(r.pattern, UNIT_BITS) == 0x2000_0000
  }

  /** A pattern with these unit and kind bits. */
  predicate HasBits(pattern: bv32, kind: bv32) {
    And(pattern, KIND_BITS) == kind && And(pattern, UNIT_BITS) == 0x2000_0000
  }

  lemma SaysIf(r: Row, m: Mnemonic)
    requires r.wide && r.defs == [Sym(8, 16)] && r.mnemonic == m
    requires MeaningOf(m).Some? && HasBits(r.pattern, KindOf(m))
    ensures SaysMnemonic(r)
  {
  }

  lemma BranchBits()
    ensures HasBits(0x2000_0040, 0x40) && HasBits(0x2100_0040, 0x100_0040) && HasBits(0x2200_0040, 0x200_0040)
  {
  }

  lemma CallBits()
    ensures HasBits(0x2000_0020, 0x20) && HasBits(0x2100_0020, 0x100_0020) && HasBits(0x2200_0020, 0x200_0020)
  {
  }

  lemma BranchPattern(i: nat)
    requires 67 <= i <= 69
    ensures SaysMnemonic(BranchRow(i))
  {
    BranchBits();
    match i
    case 67 => SaysIf(BranchRow(67), Bra);
    case 68 => SaysIf(BranchRow(68), Bra2ds);
    case _ => SaysIf(BranchRow(69), Bra1ds);
  }

  lemma CallPattern(i: nat)
    requires 73 <= i <= 75
    ensures SaysMnemonic(CallRow(i))
  {
    CallBits();
    match i
    case 73 => SaysIf(CallRow(73), Call);
    case 74 => SaysIf(CallRow(74), Call2ds);
    case _ => SaysIf(CallRow(75), Call1ds);
  }

  lemma LoopPattern()
    ensures SaysMnemonic(ReturnRow(87))
  {
    SaysIf(ReturnRow(87), Bkrep);
  }

  lemma ControlPattern(i: nat)
    requires ControlIndex(i)
    ensures SaysMnemonic(RowAt(i))
  {
    if i < 73 {
      BranchPattern(i);
    } else if i < 79 {
      CallPattern(i);
    } else {
      LoopPattern();
    }
  }

  lemma UnitFromWord(lo: bv16, hi: bv16)
    requires And(Joined(lo, hi), UNIT_BITS) == 0x2000_0000
    ensures Pcu.ForPcu(Wire(lo, hi)) && Pcu.EncBit(Wire(lo, hi))
  {
  }

  lemma RowMeaning(r: Row, inst: Instruction, notLast: bool, table: Table, c: Code)
    requires Targeted(r) && SaysMnemonic(r) && TryRow(r, inst, notLast, Known(table)) == Emit(c)
    ensures c.Long? && Pcu.ForPcu(WireOf(c)) && Pcu.EncBit(WireOf(c)) && Wide(c.lo)
    ensures And(WordOf(c, 0), KIND_BITS) == KindOf(r.mnemonic) && inst.mnemonic == r.mnemonic
    ensures |inst.ops| == 1
  {
    MatchLength(r, inst.ops, 0);
    EmittedBits(r, inst, notLast, Known(table));
    CodeKind(r, inst, notLast, Known(table), c);
    CodeUnit(r, inst, notLast, Known(table), c);
    UnitFromWord(c.lo, c.hi);
  }

  /** A branch, call or loop to a symbol reaches the control unit as what its mnemonic says: type, delay
      slots, and the symbol's address as the target. */
  lemma ControlMeaning(i: nat, inst: Instruction, notLast: bool, table: Table, c: Code)
    requires ControlIndex(i) && RowOk(RowAt(i)) && TryRow(RowAt(i), inst, notLast, Known(table)) == Emit(c)
    ensures c.Long? && IsControl(c) && |inst.ops| == 1
    ensures var f := Pcu.Fields(WireOf(c));
      && Some((f.itype, f.slots)) == MeaningOf(inst.mnemonic)
      && Lookup(table, inst.ops[0].name) == Some(f.imm)
  {
    RowTargets(i);
    ControlPattern(i);
    RowMeaning(RowAt(i), inst, notLast, table, c);
    KindMeans(inst.mnemonic, c.lo, c.hi);
    ControlTarget(RowAt(i), inst, notLast, table, c);
  }

  /** What the control unit reads as the target of an encoded jump, call or loop is the address of the
      symbol that is its one operand. */
  lemma TargetIsSymbol(i: nat, inst: Instruction, notLast: bool, table: Table, c: Code)
    requires i < ROWS && RowOk(RowAt(i)) && TryRow(RowAt(i), inst, notLast, Known(table)) == Emit(c) && IsControl(c)
    ensures |inst.ops| == 1 && inst.ops[0].kind == SymbolRef
    ensures Lookup(table, inst.ops[0].name) == Some(Pcu.Fields(WireOf(c)).imm)
  {
    RowTargets(i);
    ControlRow(RowAt(i), inst, notLast, Known(table), c);
    ControlTarget(RowAt(i), inst, notLast, table, c);
  }
}

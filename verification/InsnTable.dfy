/** The instruction table of sw/tools/asm/ajardsp-insns.c, row by row, and what makes it a sound
    encoding: at most one row encodes an instruction. */
module InsnTable {
  import opened Words
  import opened Encoding

  const ROWS := 89

  function Acc(offset: bv32, width: bv32): OpDef { OpDef(Reg, offset, width, EncAcc) }
  function AccHalf(offset: bv32, width: bv32): OpDef { OpDef(Reg, offset, width, EncAccHalf) }
  function Ptr(offset: bv32, width: bv32): OpDef { OpDef(Reg, offset, width, EncPtr) }
  function PredReg(offset: bv32, width: bv32): OpDef { OpDef(Reg, offset, width, EncPred) }
  function AnyReg(offset: bv32, width: bv32): OpDef { OpDef(Reg, offset, width, EncReg) }
  function Spec(offset: bv32, width: bv32): OpDef { OpDef(Reg, offset, width, EncSpec) }
  function Imm(offset: bv32, width: bv32): OpDef { OpDef(Integer, offset, width, EncInt) }
  function Sym(offset: bv32, width: bv32): OpDef { OpDef(SymbolRef, offset, width, EncSymref) }

  /** Rows 0 to 7: nop and 32-bit logic. */
  function LogicRow(i: nat): Row
    requires 0 <= i < 8
  {
    match i
    case 0 => Row(Nop, false, 0x0, [])
    case 1 => Row(And32, true, 0x2000001C, [Acc(10, 3), Acc(14, 3), Acc(18, 3)])
    case 2 => Row(Or32, true, 0x2000003C, [Acc(10, 3), Acc(14, 3), Acc(18, 3)])
    case 3 => Row(Xor32, true, 0x2000004C, [Acc(10, 3), Acc(14, 3), Acc(18, 3)])
    case 4 => Row(Not32, true, 0x2000002C, [Acc(10, 3), Acc(18, 3)])
    case 5 => Row(Shiftra32, true, 0x2000005C, [Acc(10, 3), AccHalf(13, 4), Acc(18, 3)])
    case 6 => Row(Shiftrl32, true, 0x2000006C, [Acc(10, 3), AccHalf(13, 4), Acc(18, 3)])
    case _ => Row(Shiftll32, true, 0x2080006C, [Acc(10, 3), AccHalf(13, 4), Acc(18, 3)])
  }

  /** Rows 8 to 14: 16-bit logic. */
  function HalfLogicRow(i: nat): Row
    requires 8 <= i < 15
  {
    match i
    case 8 => Row(And16, true, 0x2020001C, [AccHalf(9, 4), AccHalf(13, 4), AccHalf(17, 4)])
    case 9 => Row(Or16, true, 0x2020003C, [AccHalf(9, 4), AccHalf(13, 4), AccHalf(17, 4)])
    case 10 => Row(Xor16, true, 0x2020004C, [AccHalf(9, 4), AccHalf(13, 4), AccHalf(17, 4)])
    case 11 => Row(Not16, true, 0x2020002C, [AccHalf(9, 4), AccHalf(17, 4)])
    case 12 => Row(Shiftra16, true, 0x2020005C, [AccHalf(9, 4), AccHalf(13, 4), AccHalf(17, 4)])
    case 13 => Row(Shiftrl16, true, 0x2020006C, [AccHalf(9, 4), AccHalf(13, 4), AccHalf(17, 4)])
    case _ => Row(Shiftll16, true, 0x20A0006C, [AccHalf(9, 4), AccHalf(13, 4), AccHalf(17, 4)])
  }

  /** Rows 15 to 20: arithmetic. */
  function ArithmeticRow(i: nat): Row
    requires 15 <= i < 21
  {
    match i
    case 15 => Row(Add32, false, 0x38, [Acc(7, 3), Acc(10, 3), Acc(13, 3)])
    case 16 => Row(Sub32, false, 0x48, [Acc(7, 3), Acc(10, 3), Acc(13, 3)])
    case 17 => Row(Add16, false, 0x18, [AccHalf(11, 4), AccHalf(7, 4)])
    case 18 => Row(Sub16, false, 0x28, [AccHalf(11, 4), AccHalf(7, 4)])
    case 19 => Row(Mpy16, false, 0x58, [AccHalf(7, 3), AccHalf(10, 3), Acc(13, 3)])
    case _ => Row(Mac16, false, 0x68, [AccHalf(7, 3), AccHalf(10, 3), Acc(13, 3)])
  }

  /** Rows 21 to 30: comparisons. */
  function CompareRow(i: nat): Row
    requires 21 <= i < 31
  {
    match i
    case 21 => Row(Cmp16eq, true, 0x20000018, [AccHalf(9, 4), AccHalf(13, 4), PredReg(24, 2)])
    case 22 => Row(Cmp16ne, true, 0x24000018, [AccHalf(9, 4), AccHalf(13, 4), PredReg(24, 2)])
    case 23 => Row(Cmp16lt, true, 0x28000018, [AccHalf(9, 4), AccHalf(13, 4), PredReg(24, 2)])
    case 24 => Row(Cmp16ltu, true, 0x28000018, [AccHalf(9, 4), AccHalf(13, 4), PredReg(24, 2)])
    case 25 => Row(Cmp16le, true, 0x2C000018, [AccHalf(9, 4), AccHalf(13, 4), PredReg(24, 2)])
    case 26 => Row(Cmp16leu, true, 0x2C000018, [AccHalf(9, 4), AccHalf(13, 4), PredReg(24, 2)])
    case 27 => Row(Cmp16gt, true, 0x30000018, [AccHalf(9, 4), AccHalf(13, 4), PredReg(24, 2)])
    case 28 => Row(Cmp16gtu, true, 0x30000018, [AccHalf(9, 4), AccHalf(13, 4), PredReg(24, 2)])
    case 29 => Row(Cmp16ge, true, 0x34000018, [AccHalf(9, 4), AccHalf(13, 4), PredReg(24, 2)])
    case _ => Row(Cmp16geu, true, 0x34000018, [AccHalf(9, 4), AccHalf(13, 4), PredReg(24, 2)])
  }

  /** Rows 31 to 38: memory through a pointer. */
  function MemoryRow(i: nat): Row
    requires 31 <= i < 39
  {
    match i
    case 31 => Row(Ld16, false, 0x14, [Ptr(8, 3), AnyReg(11, 5)])
    case 32 => Row(Ldinc16, false, 0x24, [Ptr(8, 3), AnyReg(11, 5)])
    case 33 => Row(St16, false, 0x34, [AnyReg(11, 5), Ptr(8, 3)])
    case 34 => Row(Stinc16, false, 0x44, [AnyReg(11, 5), Ptr(8, 3)])
    case 35 => Row(Ld32, false, 0x54, [Ptr(8, 3), Acc(11, 3)])
    case 36 => Row(Ldinc32, false, 0x64, [Ptr(8, 3), Acc(11, 3)])
    case 37 => Row(St32, false, 0x74, [Acc(11, 3), Ptr(8, 3)])
    case _ => Row(Stinc32, false, 0x84, [Acc(11, 3), Ptr(8, 3)])
  }

  /** Rows 39 to 46: immediates and loads with an offset. */
  function ImmediateRow(i: nat): Row
    requires 39 <= i < 47
  {
    match i
    case 39 => Row(Ldimm16, true, 0x200000A4, [Imm(12, 16), AccHalf(8, 4)])
    case 40 => Row(Ldimm16, true, 0x20000094, [Imm(12, 16), Ptr(8, 4)])
    case 41 => Row(Ldimm16, true, 0x20000094, [Sym(12, 16), Ptr(8, 4)])
    case 42 => Row(Ldimm16, true, 0x20000094, [Sym(12, 16), AccHalf(8, 4)])
    case 43 => Row(Ldoff16, true, 0x20000044, [Ptr(25, 3), Imm(13, 12), AnyReg(8, 5)])
    case 44 => Row(Ldoff16, true, 0x20000044, [Ptr(25, 3), Sym(13, 12), AnyReg(8, 5)])
    case 45 => Row(Ldoff32, true, 0x20000054, [Ptr(25, 3), Imm(13, 12), Acc(9, 3)])
    case _ => Row(Ldoff32, true, 0x20000054, [Ptr(25, 3), Sym(13, 12), Acc(9, 3)])
  }

  /** Rows 47 to 51: stores with an offset. */
  function OffsetRow(i: nat): Row
    requires 47 <= i < 52
  {
    match i
    case 47 => Row(Stoff16, true, 0x20000064, [AnyReg(8, 5), Ptr(25, 3), Imm(13, 12)])
    case 48 => Row(Stoff16, true, 0x20000064, [AnyReg(8, 5), Ptr(25, 3), Sym(13, 12)])
    case 49 => Row(Stoff32, true, 0x20000074, [Acc(9, 3), Ptr(25, 3), Imm(13, 12)])
    case 50 => Row(Stoff32, true, 0x20000074, [Acc(9, 3), Ptr(25, 3), Sym(13, 12)])
    case _ => Row(Addptr16, true, 0x20000084, [Imm(13, 12), Ptr(25, 3)])
  }

  /** Rows 52 to 59: special registers and the stack. */
  function StackRow(i: nat): Row
    requires 52 <= i < 60
  {
    match i
    case 52 => Row(Mvts16, true, 0x20000014, [AnyReg(8, 5), Spec(13, 6)])
    case 53 => Row(Mvfs16, true, 0x20000024, [Spec(13, 6), AnyReg(8, 5)])
    case 54 => Row(Push16, false, 0x194, [AnyReg(11, 5)])
    case 55 => Row(Push16, false, 0x594, [Spec(11, 5)])
    case 56 => Row(Push32, false, 0x8394, [Acc(12, 3)])
    case 57 => Row(Pop16, false, 0x94, [AnyReg(11, 5)])
    case 58 => Row(Pop16, false, 0x494, [Spec(11, 5)])
    case _ => Row(Pop32, false, 0x8294, [Acc(12, 3)])
  }

  /** Rows 60 to 66: moves and the external bus. */
  function MoveRow(i: nat): Row
    requires 60 <= i < 67
  {
    match i
    case 60 => Row(Mv16, false, 0xA4, [Ptr(9, 3), AccHalf(12, 4)])
    case 61 => Row(Mv16, false, 0x1A4, [AccHalf(12, 4), Ptr(9, 3)])
    case 62 => Row(Mv16, false, 0xC4, [Ptr(9, 3), Ptr(12, 3)])
    case 63 => Row(Mv16, false, 0xB4, [AccHalf(12, 4), AccHalf(8, 4)])
    case 64 => Row(Stext32, true, 0x200000C4, [Acc(14, 3), Ptr(8, 3), Ptr(11, 3)])
    case 65 => Row(Ldext32, true, 0x200000B4, [Ptr(8, 3), Ptr(11, 3), Acc(14, 3)])
    case _ => Row(Extburst, true, 0x200000D4, [Imm(17, 8), Ptr(8, 3), Ptr(11, 3), Acc(14, 3)])
  }

  /** Rows 67 to 72: branches. */
  function BranchRow(i: nat): Row
    requires 67 <= i < 73
  {
    match i
    case 67 => Row(Bra, true, 0x20000040, [Sym(8, 16)])
    case 68 => Row(Bra2ds, true, 0x22000040, [Sym(8, 16)])
    case 69 => Row(Bra1ds, true, 0x21000040, [Sym(8, 16)])
    case 70 => Row(Bra, false, 0x40, [Ptr(8, 3)])
    case 71 => Row(Bra2ds, false, 0x2040, [Ptr(8, 3)])
    case _ => Row(Bra1ds, false, 0x1040, [Ptr(8, 3)])
  }

  /** Rows 73 to 78: calls. */
  function CallRow(i: nat): Row
    requires 73 <= i < 79
  {
    match i
    case 73 => Row(Call, true, 0x20000020, [Sym(8, 16)])
    case 74 => Row(Call2ds, true, 0x22000020, [Sym(8, 16)])
    case 75 => Row(Call1ds, true, 0x21000020, [Sym(8, 16)])
    case 76 => Row(Call, false, 0x20, [Ptr(8, 3)])
    case 77 => Row(Call2ds, false, 0x2020, [Ptr(8, 3)])
    case _ => Row(Call1ds, false, 0x1020, [Ptr(8, 3)])
  }

  /** Rows 79 to 88: returns and the rest. */
  function ReturnRow(i: nat): Row
    requires 79 <= i < 89
  {
    match i
    case 79 => Row(Rets, false, 0x30, [])
    case 80 => Row(Rets2ds, false, 0x2030, [])
    case 81 => Row(Rets1ds, false, 0x1030, [])
    case 82 => Row(Reti, false, 0x50, [])
    case 83 => Row(Reti2ds, false, 0x2050, [])
    case 84 => Row(Reti1ds, false, 0x1050, [])
    case 85 => Row(Eint, false, 0x60, [])
    case 86 => Row(Dint, false, 0x70, [])
    case 87 => Row(Bkrep, true, 0x20000010, [Sym(8, 16)])
    case _ => Row(Halt, false, 0xF0, [])
  }

  function RowAt(i: nat): Row
    requires i < ROWS
  {
    if i < 8 then LogicRow(i)
    else if i < 15 then HalfLogicRow(i)
    else if i < 21 then ArithmeticRow(i)
    else if i < 31 then CompareRow(i)
    else if i < 39 then MemoryRow(i)
    else if i < 47 then ImmediateRow(i)
    else if i < 52 then OffsetRow(i)
    else if i < 60 then StackRow(i)
    else if i < 67 then MoveRow(i)
    else if i < 73 then BranchRow(i)
    else if i < 79 then CallRow(i)
    else ReturnRow(i)
  }

  function Insns(): (rows: seq<Row>)
    ensures |rows| == ROWS
  {
    seq(ROWS, i requires 0 <= i < ROWS => RowAt(i))
  }

  // ---------------------------------------------------- which rows share a mnemonic

  /** The mnemonics with several rows, and where those rows are. */
  predicate Shared(m: Mnemonic, i: nat) {
    match m
    case Ldimm16 => i == 39 || i == 40 || i == 41 || i == 42
    case Ldoff16 => i == 43 || i == 44
    case Ldoff32 => i == 45 || i == 46
    case Stoff16 => i == 47 || i == 48
    case Stoff32 => i == 49 || i == 50
    case Push16 => i == 54 || i == 55
    case Pop16 => i == 57 || i == 58
    case Mv16 => i == 60 || i == 61 || i == 62 || i == 63
    case Bra => i == 67 || i == 70
    case Bra2ds => i == 68 || i == 71
    case Bra1ds => i == 69 || i == 72
    case Call => i == 73 || i == 76
    case Call2ds => i == 74 || i == 77
    case Call1ds => i == 75 || i == 78
    case _ => i == Only(m)
  }

  /** The rows of branches and calls: a symbol or a register. */
  predicate Jumps(m: Mnemonic, i: nat) {
    match m
    case Bra => i == 67 || i == 70
    case Bra2ds => i == 68 || i == 71
    case Bra1ds => i == 69 || i == 72
    case Call => i == 73 || i == 76
    case Call2ds => i == 74 || i == 77
    case Call1ds => i == 75 || i == 78
    case _ => false
  }

  lemma JumpsShared(m: Mnemonic, i: nat)
    requires Jumps(m, i)
    ensures Shared(m, i)
  {
  }

  /** The row of a mnemonic that has just one. */
  function Only(m: Mnemonic): nat {
    match m
    case Nop => 0
    case And32 => 1
    case Or32 => 2
    case Xor32 => 3
    case Not32 => 4
    case Shiftra32 => 5
    case Shiftrl32 => 6
    case Shiftll32 => 7
    case And16 => 8
    case Or16 => 9
    case Xor16 => 10
    case Not16 => 11
    case Shiftra16 => 12
    case Shiftrl16 => 13
    case Shiftll16 => 14
    case Add32 => 15
    case Sub32 => 16
    case Add16 => 17
    case Sub16 => 18
    case Mpy16 => 19
    case Mac16 => 20
    case Cmp16eq => 21
    case Cmp16ne => 22
    case Cmp16lt => 23
    case Cmp16ltu => 24
    case Cmp16le => 25
    case Cmp16leu => 26
    case Cmp16gt => 27
    case Cmp16gtu => 28
    case Cmp16ge => 29
    case Cmp16geu => 30
    case Ld16 => 31
    case Ldinc16 => 32
    case St16 => 33
    case Stinc16 => 34
    case Ld32 => 35
    case Ldinc32 => 36
    case St32 => 37
    case Stinc32 => 38
    case Addptr16 => 51
    case Mvts16 => 52
    case Mvfs16 => 53
    case Push32 => 56
    case Pop32 => 59
    case Stext32 => 64
    case Ldext32 => 65
    case Extburst => 66
    case Rets => 79
    case Rets2ds => 80
    case Rets1ds => 81
    case Reti => 82
    case Reti2ds => 83
    case Reti1ds => 84
    case Eint => 85
    case Dint => 86
    case Bkrep => 87
    case Halt => 88
    case _ => ROWS
  }

  lemma LogicRowShared(i: nat)
    requires 0 <= i < 8
    ensures Shared(LogicRow(i).mnemonic, i)
  {
  }

  lemma LogicRowOk(i: nat)
    requires 0 <= i < 8
    ensures RowOk(LogicRow(i))
  {
  }

  lemma HalfLogicRowShared(i: nat)
    requires 8 <= i < 15
    ensures Shared(HalfLogicRow(i).mnemonic, i)
  {
  }

  lemma HalfLogicRowOk(i: nat)
    requires 8 <= i < 15
    ensures RowOk(HalfLogicRow(i))
  {
  }

  lemma ArithmeticRowShared(i: nat)
    requires 15 <= i < 21
    ensures Shared(ArithmeticRow(i).mnemonic, i)
  {
  }

  lemma ArithmeticRowOk(i: nat)
    requires 15 <= i < 21
    ensures RowOk(ArithmeticRow(i))
  {
  }

  lemma CompareRowShared(i: nat)
    requires 21 <= i < 31
    ensures Shared(CompareRow(i).mnemonic, i)
  {
  }

  lemma CompareRowOk(i: nat)
    requires 21 <= i < 31
    ensures RowOk(CompareRow(i))
  {
  }

  lemma MemoryRowShared(i: nat)
    requires 31 <= i < 39
    ensures Shared(MemoryRow(i).mnemonic, i)
  {
  }

  lemma MemoryRowOk(i: nat)
    requires 31 <= i < 39
    ensures RowOk(MemoryRow(i))
  {
  }

  lemma ImmediateRowShared(i: nat)
    requires 39 <= i < 47
    ensures Shared(ImmediateRow(i).mnemonic, i)
  {
  }

  lemma ImmediateRowOk(i: nat)
    requires 39 <= i < 47
    ensures RowOk(ImmediateRow(i))
  {
  }

  lemma OffsetRowShared(i: nat)
    requires 47 <= i < 52
    ensures Shared(OffsetRow(i).mnemonic, i)
  {
  }

  lemma OffsetRowOk(i: nat)
    requires 47 <= i < 52
    ensures RowOk(OffsetRow(i))
  {
  }

  lemma StackRowShared(i: nat)
    requires 52 <= i < 60
    ensures Shared(StackRow(i).mnemonic, i)
  {
  }

  lemma StackRowOk(i: nat)
    requires 52 <= i < 60
    ensures RowOk(StackRow(i))
  {
  }

  lemma MoveRowShared(i: nat)
    requires 60 <= i < 67
    ensures Shared(MoveRow(i).mnemonic, i)
  {
  }

  lemma MoveRowOk(i: nat)
    requires 60 <= i < 67
    ensures RowOk(MoveRow(i))
  {
  }

  lemma BranchRowPairs(i: nat)
    requires 67 <= i < 73
    ensures Jumps(BranchRow(i).mnemonic, i)
  {
  }

  lemma BranchRowShared(i: nat)
    requires 67 <= i < 73
    ensures Shared(BranchRow(i).mnemonic, i)
  {
    BranchRowPairs(i);
    JumpsShared(BranchRow(i).mnemonic, i);
  }

  lemma BranchRowOk(i: nat)
    requires 67 <= i < 73
    ensures RowOk(BranchRow(i))
  {
  }

  lemma CallRowPairs(i: nat)
    requires 73 <= i < 79
    ensures Jumps(CallRow(i).mnemonic, i)
  {
  }

  lemma CallRowShared(i: nat)
    requires 73 <= i < 79
    ensures Shared(CallRow(i).mnemonic, i)
  {
    CallRowPairs(i);
    JumpsShared(CallRow(i).mnemonic, i);
  }

  lemma CallRowOk(i: nat)
    requires 73 <= i < 79
    ensures RowOk(CallRow(i))
  {
  }

  lemma ReturnRowShared(i: nat)
    requires 79 <= i < 89
    ensures Shared(ReturnRow(i).mnemonic, i)
  {
  }

  lemma ReturnRowOk(i: nat)
    requires 79 <= i < 89
    ensures RowOk(ReturnRow(i))
  {
  }

  lemma RowShared(i: nat)
    requires i < ROWS
    ensures Shared(RowAt(i).mnemonic, i) && RowOk(RowAt(i))
  {
    if i < 8 {
      LogicRowShared(i);
      LogicRowOk(i);
    } else if i < 15 {
      HalfLogicRowShared(i);
      HalfLogicRowOk(i);
    } else if i < 21 {
      ArithmeticRowShared(i);
      ArithmeticRowOk(i);
    } else if i < 31 {
      CompareRowShared(i);
      CompareRowOk(i);
    } else if i < 39 {
      MemoryRowShared(i);
      MemoryRowOk(i);
    } else if i < 47 {
      ImmediateRowShared(i);
      ImmediateRowOk(i);
    } else if i < 52 {
      OffsetRowShared(i);
      OffsetRowOk(i);
    } else if i < 60 {
      StackRowShared(i);
      StackRowOk(i);
    } else if i < 67 {
      MoveRowShared(i);
      MoveRowOk(i);
    } else if i < 73 {
      BranchRowShared(i);
      BranchRowOk(i);
    } else if i < 79 {
      CallRowShared(i);
      CallRowOk(i);
    } else {
      ReturnRowShared(i);
      ReturnRowOk(i);
    }
  }

  lemma InsnsOk()
    ensures TableOk(Insns())
  {
    forall i: nat | i < ROWS
      ensures RowOk(Insns()[i])
    {
      RowShared(i);
    }
  }

  // ------------------------------------------------------ unique encoding

  /** A row that could encode the instruction, whatever the symbols turn out to be. */
  ghost predicate Fits(r: Row, inst: Instruction)
    requires RowOk(r)
  {
    && r.mnemonic == inst.mnemonic
    && |inst.ops| == |r.defs|
    && (forall k :: 0 <= k < |r.defs| ==> r.defs[k].kind == inst.ops[k].kind)
    && (forall k :: 0 <= k < |r.defs| ==> Accepts(r.defs[k], inst.ops[k]))
  }

  lemma EmitFits(r: Row, inst: Instruction, notLast: bool, syms: Symbols)
    requires RowOk(r) && TryRow(r, inst, notLast, syms).Emit?
    ensures Fits(r, inst)
  {
    MatchLength(r, inst.ops, 0);
    BodyExists(r, inst, notLast, syms);
  }

  /** A name is not both an accumulator's and a pointer's, and neither's if it is special. */
  lemma NamesApart(name: string)
    ensures !("acc" <= name && "ptr" <= name)
    ensures SpecReg(name).Some? ==> !("acc" <= name) && !("ptr" <= name)
  {
    if "acc" <= name {
      assert name[0] == 'a';
    }
    if "ptr" <= name {
      assert name[0] == 'p' && name[1] == 't';
    }
  }

  /** Two operands at the same place rule out two rows at once. */
  predicate Clash(d: OpDef, e: OpDef) {
    || d.kind != e.kind
    || (d.encoder.EncAccHalf? && e.encoder.EncPtr?)
    || (d.encoder.EncPtr? && e.encoder.EncAccHalf?)
    || (d.encoder.EncReg? && e.encoder.EncSpec?)
  }

  lemma ClashSound(d: OpDef, e: OpDef, op: Operand)
    requires DefOk(d) && DefOk(e) && Clash(d, e)
    requires d.kind == op.kind == e.kind
    ensures !(Accepts(d, op) && Accepts(e, op))
  {
    NamesApart(op.name);
  }

  /** The pairs of rows for one mnemonic, and an operand where they clash. */
  predicate RowsClashAt(i: nat, j: nat, k: nat) {
    && i < ROWS && j < ROWS && k < |RowAt(i).defs| && k < |RowAt(j).defs|
    && Clash(RowAt(i).defs[k], RowAt(j).defs[k])
  }

  lemma LoadRowsClash()
    ensures RowsClashAt(39, 40, 1)
    ensures RowsClashAt(39, 41, 0)
    ensures RowsClashAt(39, 42, 0)
    ensures RowsClashAt(40, 41, 0)
    ensures RowsClashAt(40, 42, 0)
    ensures RowsClashAt(41, 42, 1)
  {
  }

  lemma OffsetRowsClash()
    ensures RowsClashAt(43, 44, 1)
    ensures RowsClashAt(45, 46, 1)
    ensures RowsClashAt(47, 48, 2)
    ensures RowsClashAt(49, 50, 2)
  {
  }

  lemma StackRowsClash()
    ensures RowsClashAt(54, 55, 0)
    ensures RowsClashAt(57, 58, 0)
  {
  }

  lemma MoveRowsClash()
    ensures RowsClashAt(60, 61, 0)
    ensures RowsClashAt(60, 62, 1)
    ensures RowsClashAt(60, 63, 0)
    ensures RowsClashAt(61, 62, 0)
    ensures RowsClashAt(61, 63, 1)
    ensures RowsClashAt(62, 63, 0)
  {
  }

  lemma JumpRowsClash()
    ensures RowsClashAt(67, 70, 0)
    ensures RowsClashAt(68, 71, 0)
    ensures RowsClashAt(69, 72, 0)
    ensures RowsClashAt(73, 76, 0)
    ensures RowsClashAt(74, 77, 0)
    ensures RowsClashAt(75, 78, 0)
  {
  }

  /** The rows of one mnemonic: loads of an immediate, offsets, the stack, moves, jumps. */
  predicate Pair(i: nat, j: nat) {
    || (39 <= i < j <= 42)
    || (j == i + 1 && (i == 43 || i == 45 || i == 47 || i == 49 || i == 54 || i == 57))
    || (60 <= i < j <= 63)
    || (j == i + 3 && (67 <= i <= 69 || 73 <= i <= 75))
  }

  lemma SharedPair(m: Mnemonic, i: nat, j: nat)
    requires Shared(m, i) && Shared(m, j) && i < j
    ensures Pair(i, j)
  {
  }

  function ClashAt(i: nat, j: nat): nat {
    if i == 47 || i == 49 then 2
    else if (i == 39 && j == 40) || (i == 41 && j == 42) || i == 43 || i == 45 then 1
    else if (i == 60 && j == 62) || (i == 61 && j == 63) then 1
    else 0
  }

  /** Rows with the same mnemonic have an operand that at most one of them takes. */
  lemma RowsClash(i: nat, j: nat)
    requires i < j < ROWS && RowAt(i).mnemonic == RowAt(j).mnemonic
    ensures RowsClashAt(i, j, ClashAt(i, j))
  {
    RowsPair(i, j);
    PairsClash(i, j);
  }

  lemma RowsPair(i: nat, j: nat)
    requires i < j < ROWS && RowAt(i).mnemonic == RowAt(j).mnemonic
    ensures Pair(i, j)
  {
    RowShared(i);
    RowShared(j);
    SharedPair(RowAt(i).mnemonic, i, j);
  }

  lemma PairsClash(i: nat, j: nat)
    requires Pair(i, j)
    ensures RowsClashAt(i, j, ClashAt(i, j))
  {
    if j < 43 {
      LoadRowsClash();
    } else if j < 52 {
      OffsetRowsClash();
    } else if j < 60 {
      StackRowsClash();
    } else if j < 67 {
      MoveRowsClash();
    } else {
      JumpRowsClash();
    }
  }

  /** At most one row encodes an instruction, whatever the symbols turn out to be. */
  lemma UniqueRow(i: nat, j: nat, inst: Instruction)
    requires i < ROWS && j < ROWS && RowOk(RowAt(i)) && RowOk(RowAt(j))
    requires Fits(RowAt(i), inst) && Fits(RowAt(j), inst)
    ensures i == j
  {
    if i != j {
      var a, b := if i < j then i else j, if i < j then j else i;
      RowsClash(a, b);
      var k := ClashAt(a, b);
      ClashSound(RowAt(a).defs[k], RowAt(b).defs[k], inst.ops[k]);
    }
  }
}

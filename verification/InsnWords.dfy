/** The words of the instruction table: operands never overlap, and what the disassembler finds is
    the pattern that was assembled. */
module InsnWords {
  import opened Words
  import opened Vliwdec
  import opened Encoding
  import opened InsnTable
  import opened UniqueEncoding
  import opened Disasm

  lemma UnrollBits(r: Row)
    requires RowOk(r)
    ensures OperandBits(r, 0) == 0
    ensures |r.defs| >= 1 ==> OperandBits(r, 1) == FieldMask(r.defs[0])
    ensures |r.defs| >= 2 ==> OperandBits(r, 2) == Or(OperandBits(r, 1), FieldMask(r.defs[1]))
    ensures |r.defs| >= 3 ==> OperandBits(r, 3) == Or(OperandBits(r, 2), FieldMask(r.defs[2]))
    ensures |r.defs| >= 4 ==> OperandBits(r, 4) == Or(OperandBits(r, 3), FieldMask(r.defs[3]))
  {
  }

  /** The row's operands occupy exactly `bits`, and apart from each other and from the fixed bits. */
  ghost predicate Shaped(r: Row, bits: bv32) {
    Apart(r) && OperandBits(r, |r.defs|) == bits
  }

  lemma Shape0(r: Row)
    requires RowOk(r) && |r.defs| == 0 && And(r.pattern, 0xC000_0003) == 0
    requires !r.wide ==> And(r.pattern, 0xFFFF_0000) == 0
    ensures Shaped(r, 0)
  {
    UnrollBits(r);
    Emptiness(r.pattern);
  }

  lemma Emptiness(x: bv32)
    ensures And(0, x) == 0
  {
  }

  lemma Shape1(r: Row, m0: bv32, bits: bv32)
    requires RowOk(r) && |r.defs| == 1
    requires FieldMask(r.defs[0]) == m0
    requires bits == m0 && And(bits, 0xF000_0003) == 0 && And(bits, r.pattern) == 0
    requires And(r.pattern, 0xC000_0003) == 0
    requires !r.wide ==> And(r.pattern, 0xFFFF_0000) == 0 && And(bits, 0xFFFF_0000) == 0
    ensures Shaped(r, bits)
  {
    UnrollBits(r);
    Nothing(FieldMask(r.defs[0]));
  }

  lemma Shape2(r: Row, m0: bv32, m1: bv32, bits: bv32)
    requires RowOk(r) && |r.defs| == 2
    requires FieldMask(r.defs[0]) == m0 && FieldMask(r.defs[1]) == m1
    requires And(m1, m0) == 0
    requires bits == Or(m0, m1) && And(bits, 0xF000_0003) == 0 && And(bits, r.pattern) == 0
    requires And(r.pattern, 0xC000_0003) == 0
    requires !r.wide ==> And(r.pattern, 0xFFFF_0000) == 0 && And(bits, 0xFFFF_0000) == 0
    ensures Shaped(r, bits)
  {
    UnrollBits(r);
    Nothing(FieldMask(r.defs[0]));
  }

  lemma Shape3(r: Row, m0: bv32, m1: bv32, m2: bv32, bits: bv32)
    requires RowOk(r) && |r.defs| == 3
    requires FieldMask(r.defs[0]) == m0 && FieldMask(r.defs[1]) == m1 && FieldMask(r.defs[2]) == m2
    requires And(m1, m0) == 0 && And(m2, Or(m0, m1)) == 0
    requires bits == Or(Or(m0, m1), m2) && And(bits, 0xF000_0003) == 0 && And(bits, r.pattern) == 0
    requires And(r.pattern, 0xC000_0003) == 0
    requires !r.wide ==> And(r.pattern, 0xFFFF_0000) == 0 && And(bits, 0xFFFF_0000) == 0
    ensures Shaped(r, bits)
  {
    UnrollBits(r);
    Nothing(FieldMask(r.defs[0]));
  }

  lemma Shape4(r: Row, m0: bv32, m1: bv32, m2: bv32, m3: bv32, bits: bv32)
    requires RowOk(r) && |r.defs| == 4
    requires FieldMask(r.defs[0]) == m0 && FieldMask(r.defs[1]) == m1
    requires FieldMask(r.defs[2]) == m2 && FieldMask(r.defs[3]) == m3
    requires And(m1, m0) == 0 && And(m2, Or(m0, m1)) == 0 && And(m3, Or(Or(m0, m1), m2)) == 0
    requires bits == Or(Or(Or(m0, m1), m2), m3) && And(bits, 0xF000_0003) == 0 && And(bits, r.pattern) == 0
    requires And(r.pattern, 0xC000_0003) == 0
    requires !r.wide ==> And(r.pattern, 0xFFFF_0000) == 0 && And(bits, 0xFFFF_0000) == 0
    ensures Shaped(r, bits)
  {
    UnrollBits(r);
    Nothing(FieldMask(r.defs[0]));
  }

  lemma Nothing(x: bv32)
    ensures And(x, 0) == 0
  {
  }

  lemma LogicRowShape()
    ensures Shaped(LogicRow(0), 0x0)
    ensures Shaped(LogicRow(1), 0x1DDC00)
    ensures Shaped(LogicRow(2), 0x1DDC00)
    ensures Shaped(LogicRow(3), 0x1DDC00)
    ensures Shaped(LogicRow(4), 0x1C1C00)
    ensures Shaped(LogicRow(5), 0x1DFC00)
    ensures Shaped(LogicRow(6), 0x1DFC00)
    ensures Shaped(LogicRow(7), 0x1DFC00)
  {
    LogicRowOk(0);
    Shape0(LogicRow(0));
    LogicRowOk(1);
    Shape3(LogicRow(1), 0x1C00, 0x1C000, 0x1C0000, 0x1DDC00);
    LogicRowOk(2);
    Shape3(LogicRow(2), 0x1C00, 0x1C000, 0x1C0000, 0x1DDC00);
    LogicRowOk(3);
    Shape3(LogicRow(3), 0x1C00, 0x1C000, 0x1C0000, 0x1DDC00);
    LogicRowOk(4);
    Shape2(LogicRow(4), 0x1C00, 0x1C0000, 0x1C1C00);
    LogicRowOk(5);
    Shape3(LogicRow(5), 0x1C00, 0x1E000, 0x1C0000, 0x1DFC00);
    LogicRowOk(6);
    Shape3(LogicRow(6), 0x1C00, 0x1E000, 0x1C0000, 0x1DFC00);
    LogicRowOk(7);
    Shape3(LogicRow(7), 0x1C00, 0x1E000, 0x1C0000, 0x1DFC00);
  }

  lemma HalfLogicRowShape()
    ensures Shaped(HalfLogicRow(8), 0x1FFE00)
    ensures Shaped(HalfLogicRow(9), 0x1FFE00)
    ensures Shaped(HalfLogicRow(10), 0x1FFE00)
    ensures Shaped(HalfLogicRow(11), 0x1E1E00)
    ensures Shaped(HalfLogicRow(12), 0x1FFE00)
    ensures Shaped(HalfLogicRow(13), 0x1FFE00)
    ensures Shaped(HalfLogicRow(14), 0x1FFE00)
  {
    HalfLogicRowOk(8);
    Shape3(HalfLogicRow(8), 0x1E00, 0x1E000, 0x1E0000, 0x1FFE00);
    HalfLogicRowOk(9);
    Shape3(HalfLogicRow(9), 0x1E00, 0x1E000, 0x1E0000, 0x1FFE00);
    HalfLogicRowOk(10);
    Shape3(HalfLogicRow(10), 0x1E00, 0x1E000, 0x1E0000, 0x1FFE00);
    HalfLogicRowOk(11);
    Shape2(HalfLogicRow(11), 0x1E00, 0x1E0000, 0x1E1E00);
    HalfLogicRowOk(12);
    Shape3(HalfLogicRow(12), 0x1E00, 0x1E000, 0x1E0000, 0x1FFE00);
    HalfLogicRowOk(13);
    Shape3(HalfLogicRow(13), 0x1E00, 0x1E000, 0x1E0000, 0x1FFE00);
    HalfLogicRowOk(14);
    Shape3(HalfLogicRow(14), 0x1E00, 0x1E000, 0x1E0000, 0x1FFE00);
  }

  lemma ArithmeticRowShape()
    ensures Shaped(ArithmeticRow(15), 0xFF80)
    ensures Shaped(ArithmeticRow(16), 0xFF80)
    ensures Shaped(ArithmeticRow(17), 0x7F80)
    ensures Shaped(ArithmeticRow(18), 0x7F80)
    ensures Shaped(ArithmeticRow(19), 0xFF80)
    ensures Shaped(ArithmeticRow(20), 0xFF80)
  {
    ArithmeticRowOk(15);
    Shape3(ArithmeticRow(15), 0x380, 0x1C00, 0xE000, 0xFF80);
    ArithmeticRowOk(16);
    Shape3(ArithmeticRow(16), 0x380, 0x1C00, 0xE000, 0xFF80);
    ArithmeticRowOk(17);
    Shape2(ArithmeticRow(17), 0x7800, 0x780, 0x7F80);
    ArithmeticRowOk(18);
    Shape2(ArithmeticRow(18), 0x7800, 0x780, 0x7F80);
    ArithmeticRowOk(19);
    Shape3(ArithmeticRow(19), 0x380, 0x1C00, 0xE000, 0xFF80);
    ArithmeticRowOk(20);
    Shape3(ArithmeticRow(20), 0x380, 0x1C00, 0xE000, 0xFF80);
  }

  lemma CompareRowShape()
    ensures Shaped(CompareRow(21), 0x301FE00)
    ensures Shaped(CompareRow(22), 0x301FE00)
    ensures Shaped(CompareRow(23), 0x301FE00)
    ensures Shaped(CompareRow(24), 0x301FE00)
    ensures Shaped(CompareRow(25), 0x301FE00)
    ensures Shaped(CompareRow(26), 0x301FE00)
    ensures Shaped(CompareRow(27), 0x301FE00)
    ensures Shaped(CompareRow(28), 0x301FE00)
    ensures Shaped(CompareRow(29), 0x301FE00)
    ensures Shaped(CompareRow(30), 0x301FE00)
  {
    CompareRowOk(21);
    Shape3(CompareRow(21), 0x1E00, 0x1E000, 0x3000000, 0x301FE00);
    CompareRowOk(22);
    Shape3(CompareRow(22), 0x1E00, 0x1E000, 0x3000000, 0x301FE00);
    CompareRowOk(23);
    Shape3(CompareRow(23), 0x1E00, 0x1E000, 0x3000000, 0x301FE00);
    CompareRowOk(24);
    Shape3(CompareRow(24), 0x1E00, 0x1E000, 0x3000000, 0x301FE00);
    CompareRowOk(25);
    Shape3(CompareRow(25), 0x1E00, 0x1E000, 0x3000000, 0x301FE00);
    CompareRowOk(26);
    Shape3(CompareRow(26), 0x1E00, 0x1E000, 0x3000000, 0x301FE00);
    CompareRowOk(27);
    Shape3(CompareRow(27), 0x1E00, 0x1E000, 0x3000000, 0x301FE00);
    CompareRowOk(28);
    Shape3(CompareRow(28), 0x1E00, 0x1E000, 0x3000000, 0x301FE00);
    CompareRowOk(29);
    Shape3(CompareRow(29), 0x1E00, 0x1E000, 0x3000000, 0x301FE00);
    CompareRowOk(30);
    Shape3(CompareRow(30), 0x1E00, 0x1E000, 0x3000000, 0x301FE00);
  }

  lemma MemoryRowShape()
    ensures Shaped(MemoryRow(31), 0xFF00)
    ensures Shaped(MemoryRow(32), 0xFF00)
    ensures Shaped(MemoryRow(33), 0xFF00)
    ensures Shaped(MemoryRow(34), 0xFF00)
    ensures Shaped(MemoryRow(35), 0x3F00)
    ensures Shaped(MemoryRow(36), 0x3F00)
    ensures Shaped(MemoryRow(37), 0x3F00)
    ensures Shaped(MemoryRow(38), 0x3F00)
  {
    MemoryRowOk(31);
    Shape2(MemoryRow(31), 0x700, 0xF800, 0xFF00);
    MemoryRowOk(32);
    Shape2(MemoryRow(32), 0x700, 0xF800, 0xFF00);
    MemoryRowOk(33);
    Shape2(MemoryRow(33), 0xF800, 0x700, 0xFF00);
    MemoryRowOk(34);
    Shape2(MemoryRow(34), 0xF800, 0x700, 0xFF00);
    MemoryRowOk(35);
    Shape2(MemoryRow(35), 0x700, 0x3800, 0x3F00);
    MemoryRowOk(36);
    Shape2(MemoryRow(36), 0x700, 0x3800, 0x3F00);
    MemoryRowOk(37);
    Shape2(MemoryRow(37), 0x3800, 0x700, 0x3F00);
    MemoryRowOk(38);
    Shape2(MemoryRow(38), 0x3800, 0x700, 0x3F00);
  }

  lemma ImmediateRowShape()
    ensures Shaped(ImmediateRow(39), 0xFFFFF00)
    ensures Shaped(ImmediateRow(40), 0xFFFFF00)
    ensures Shaped(ImmediateRow(41), 0xFFFFF00)
    ensures Shaped(ImmediateRow(42), 0xFFFFF00)
    ensures Shaped(ImmediateRow(43), 0xFFFFF00)
    ensures Shaped(ImmediateRow(44), 0xFFFFF00)
    ensures Shaped(ImmediateRow(45), 0xFFFEE00)
    ensures Shaped(ImmediateRow(46), 0xFFFEE00)
  {
    ImmediateRowOk(39);
    Shape2(ImmediateRow(39), 0xFFFF000, 0xF00, 0xFFFFF00);
    ImmediateRowOk(40);
    Shape2(ImmediateRow(40), 0xFFFF000, 0xF00, 0xFFFFF00);
    ImmediateRowOk(41);
    Shape2(ImmediateRow(41), 0xFFFF000, 0xF00, 0xFFFFF00);
    ImmediateRowOk(42);
    Shape2(ImmediateRow(42), 0xFFFF000, 0xF00, 0xFFFFF00);
    ImmediateRowOk(43);
    Shape3(ImmediateRow(43), 0xE000000, 0x1FFE000, 0x1F00, 0xFFFFF00);
    ImmediateRowOk(44);
    Shape3(ImmediateRow(44), 0xE000000, 0x1FFE000, 0x1F00, 0xFFFFF00);
    ImmediateRowOk(45);
    Shape3(ImmediateRow(45), 0xE000000, 0x1FFE000, 0xE00, 0xFFFEE00);
    ImmediateRowOk(46);
    Shape3(ImmediateRow(46), 0xE000000, 0x1FFE000, 0xE00, 0xFFFEE00);
  }

  lemma OffsetRowShape()
    ensures Shaped(OffsetRow(47), 0xFFFFF00)
    ensures Shaped(OffsetRow(48), 0xFFFFF00)
    ensures Shaped(OffsetRow(49), 0xFFFEE00)
    ensures Shaped(OffsetRow(50), 0xFFFEE00)
    ensures Shaped(OffsetRow(51), 0xFFFE000)
  {
    OffsetRowOk(47);
    Shape3(OffsetRow(47), 0x1F00, 0xE000000, 0x1FFE000, 0xFFFFF00);
    OffsetRowOk(48);
    Shape3(OffsetRow(48), 0x1F00, 0xE000000, 0x1FFE000, 0xFFFFF00);
    OffsetRowOk(49);
    Shape3(OffsetRow(49), 0xE00, 0xE000000, 0x1FFE000, 0xFFFEE00);
    OffsetRowOk(50);
    Shape3(OffsetRow(50), 0xE00, 0xE000000, 0x1FFE000, 0xFFFEE00);
    OffsetRowOk(51);
    Shape2(OffsetRow(51), 0x1FFE000, 0xE000000, 0xFFFE000);
  }

  lemma StackRowShape()
    ensures Shaped(StackRow(52), 0x7FF00)
    ensures Shaped(StackRow(53), 0x7FF00)
    ensures Shaped(StackRow(54), 0xF800)
    ensures Shaped(StackRow(55), 0xF800)
    ensures Shaped(StackRow(56), 0x7000)
    ensures Shaped(StackRow(57), 0xF800)
    ensures Shaped(StackRow(58), 0xF800)
    ensures Shaped(StackRow(59), 0x7000)
  {
    StackRowOk(52);
    Shape2(StackRow(52), 0x1F00, 0x7E000, 0x7FF00);
    StackRowOk(53);
    Shape2(StackRow(53), 0x7E000, 0x1F00, 0x7FF00);
    StackRowOk(54);
    Shape1(StackRow(54), 0xF800, 0xF800);
    StackRowOk(55);
    Shape1(StackRow(55), 0xF800, 0xF800);
    StackRowOk(56);
    Shape1(StackRow(56), 0x7000, 0x7000);
    StackRowOk(57);
    Shape1(StackRow(57), 0xF800, 0xF800);
    StackRowOk(58);
    Shape1(StackRow(58), 0xF800, 0xF800);
    StackRowOk(59);
    Shape1(StackRow(59), 0x7000, 0x7000);
  }

  lemma MoveRowShape()
    ensures Shaped(MoveRow(60), 0xFE00)
    ensures Shaped(MoveRow(61), 0xFE00)
    ensures Shaped(MoveRow(62), 0x7E00)
    ensures Shaped(MoveRow(63), 0xFF00)
    ensures Shaped(MoveRow(64), 0x1FF00)
    ensures Shaped(MoveRow(65), 0x1FF00)
    ensures Shaped(MoveRow(66), 0x1FFFF00)
  {
    MoveRowOk(60);
    Shape2(MoveRow(60), 0xE00, 0xF000, 0xFE00);
    MoveRowOk(61);
    Shape2(MoveRow(61), 0xF000, 0xE00, 0xFE00);
    MoveRowOk(62);
    Shape2(MoveRow(62), 0xE00, 0x7000, 0x7E00);
    MoveRowOk(63);
    Shape2(MoveRow(63), 0xF000, 0xF00, 0xFF00);
    MoveRowOk(64);
    Shape3(MoveRow(64), 0x1C000, 0x700, 0x3800, 0x1FF00);
    MoveRowOk(65);
    Shape3(MoveRow(65), 0x700, 0x3800, 0x1C000, 0x1FF00);
    MoveRowOk(66);
    Shape4(MoveRow(66), 0x1FE0000, 0x700, 0x3800, 0x1C000, 0x1FFFF00);
  }

  lemma BranchRowShape()
    ensures Shaped(BranchRow(67), 0xFFFF00)
    ensures Shaped(BranchRow(68), 0xFFFF00)
    ensures Shaped(BranchRow(69), 0xFFFF00)
    ensures Shaped(BranchRow(70), 0x700)
    ensures Shaped(BranchRow(71), 0x700)
    ensures Shaped(BranchRow(72), 0x700)
  {
    BranchRowOk(67);
    Shape1(BranchRow(67), 0xFFFF00, 0xFFFF00);
    BranchRowOk(68);
    Shape1(BranchRow(68), 0xFFFF00, 0xFFFF00);
    BranchRowOk(69);
    Shape1(BranchRow(69), 0xFFFF00, 0xFFFF00);
    BranchRowOk(70);
    Shape1(BranchRow(70), 0x700, 0x700);
    BranchRowOk(71);
    Shape1(BranchRow(71), 0x700, 0x700);
    BranchRowOk(72);
    Shape1(BranchRow(72), 0x700, 0x700);
  }

  lemma CallRowShape()
    ensures Shaped(CallRow(73), 0xFFFF00)
    ensures Shaped(CallRow(74), 0xFFFF00)
    ensures Shaped(CallRow(75), 0xFFFF00)
    ensures Shaped(CallRow(76), 0x700)
    ensures Shaped(CallRow(77), 0x700)
    ensures Shaped(CallRow(78), 0x700)
  {
    CallRowOk(73);
    Shape1(CallRow(73), 0xFFFF00, 0xFFFF00);
    CallRowOk(74);
    Shape1(CallRow(74), 0xFFFF00, 0xFFFF00);
    CallRowOk(75);
    Shape1(CallRow(75), 0xFFFF00, 0xFFFF00);
    CallRowOk(76);
    Shape1(CallRow(76), 0x700, 0x700);
    CallRowOk(77);
    Shape1(CallRow(77), 0x700, 0x700);
    CallRowOk(78);
    Shape1(CallRow(78), 0x700, 0x700);
  }

  lemma ReturnRowShape()
    ensures Shaped(ReturnRow(79), 0x0)
    ensures Shaped(ReturnRow(80), 0x0)
    ensures Shaped(ReturnRow(81), 0x0)
    ensures Shaped(ReturnRow(82), 0x0)
    ensures Shaped(ReturnRow(83), 0x0)
    ensures Shaped(ReturnRow(84), 0x0)
    ensures Shaped(ReturnRow(85), 0x0)
    ensures Shaped(ReturnRow(86), 0x0)
    ensures Shaped(ReturnRow(87), 0xFFFF00)
    ensures Shaped(ReturnRow(88), 0x0)
  {
    ReturnRowOk(79);
    Shape0(ReturnRow(79));
    ReturnRowOk(80);
    Shape0(ReturnRow(80));
    ReturnRowOk(81);
    Shape0(ReturnRow(81));
    ReturnRowOk(82);
    Shape0(ReturnRow(82));
    ReturnRowOk(83);
    Shape0(ReturnRow(83));
    ReturnRowOk(84);
    Shape0(ReturnRow(84));
    ReturnRowOk(85);
    Shape0(ReturnRow(85));
    ReturnRowOk(86);
    Shape0(ReturnRow(86));
    ReturnRowOk(87);
    Shape1(ReturnRow(87), 0xFFFF00, 0xFFFF00);
    ReturnRowOk(88);
    Shape0(ReturnRow(88));
  }

  // ------------------------------------------ what the disassembler finds

  /** The operand bits of a word, from the size, unit and type bits that say which row it is. */
  function FieldsOf(x: bv32): bv32 {
    if x & 2 == 0 then NarrowFields(x & 0xC, x & 0xF0, x & 0x700) else WideFields(x & 0xC, x & 0xF0, x & 0x20_0000)
  }

  function NarrowFields(unit: bv32, kind: bv32, sub: bv32): bv32 {
    if unit == 0 then
      if kind == 0x20 || kind == 0x40 then 0x700 else 0
    else if unit == 8 then
      if kind & 0x70 == 0x10 || kind & 0x70 == 0x20 then 0x7F80 else 0xFF80
    else if kind <= 0x40 then 0xFF00
    else if kind <= 0x80 then 0x3F00
    else if kind == 0x90 then
      if sub == 0x200 || sub == 0x300 then 0x7000 else 0xF800
    else if kind == 0xA0 then 0xFE00
    else if kind == 0xC0 then 0x7E00
    else 0xFF00
  }

  function WideFields(unit: bv32, kind: bv32, half: bv32): bv32 {
    if unit == 0 then 0xFF_FF00
    else if unit == 8 then 0x301_FE00
    else if unit == 0xC then
      if half == 0 then
        if kind == 0x20 then 0x1C_1C00 else if kind == 0x50 || kind == 0x60 then 0x1D_FC00 else 0x1D_DC00
      else
        if kind == 0x20 then 0x1E_1E00 else 0x1F_FE00
    else if kind == 0x10 || kind == 0x20 then 0x7_FF00
    else if kind == 0x50 || kind == 0x70 then 0xFFF_EE00
    else if kind == 0x80 then 0xFFF_E000
    else if kind == 0xB0 || kind == 0xC0 then 0x1_FF00
    else if kind == 0xD0 then 0x1FF_FF00
    else 0xFFF_FF00
  }

  /** A word that agrees with a row outside the row's operands shows which bits those are. */
  predicate Shows(x: bv32, bits: bv32, fixed: bv32) {
    Without(x, bits) == fixed ==> FieldsOf(x) == bits
  }

  lemma LogicRowShows(x: bv32)
    ensures Shows(x, 0x0, 0x0)
    ensures Shows(x, 0x1DDC00, 0x2000001E)
    ensures Shows(x, 0x1DDC00, 0x2000003E)
    ensures Shows(x, 0x1DDC00, 0x2000004E)
    ensures Shows(x, 0x1C1C00, 0x2000002E)
    ensures Shows(x, 0x1DFC00, 0x2000005E)
    ensures Shows(x, 0x1DFC00, 0x2000006E)
    ensures Shows(x, 0x1DFC00, 0x2080006E)
  {
  }

  lemma HalfLogicRowShows(x: bv32)
    ensures Shows(x, 0x1FFE00, 0x2020001E)
    ensures Shows(x, 0x1FFE00, 0x2020003E)
    ensures Shows(x, 0x1FFE00, 0x2020004E)
    ensures Shows(x, 0x1E1E00, 0x2020002E)
    ensures Shows(x, 0x1FFE00, 0x2020005E)
    ensures Shows(x, 0x1FFE00, 0x2020006E)
    ensures Shows(x, 0x1FFE00, 0x20A0006E)
  {
  }

  lemma ArithmeticRowShows(x: bv32)
    ensures Shows(x, 0xFF80, 0x38)
    ensures Shows(x, 0xFF80, 0x48)
    ensures Shows(x, 0x7F80, 0x18)
    ensures Shows(x, 0x7F80, 0x28)
    ensures Shows(x, 0xFF80, 0x58)
    ensures Shows(x, 0xFF80, 0x68)
  {
  }

  lemma CompareRowShows(x: bv32)
    ensures Shows(x, 0x301FE00, 0x2000001A)
    ensures Shows(x, 0x301FE00, 0x2400001A)
    ensures Shows(x, 0x301FE00, 0x2800001A)
    ensures Shows(x, 0x301FE00, 0x2C00001A)
    ensures Shows(x, 0x301FE00, 0x3000001A)
    ensures Shows(x, 0x301FE00, 0x3400001A)
  {
  }

  lemma MemoryRowShows(x: bv32)
    ensures Shows(x, 0xFF00, 0x14)
    ensures Shows(x, 0xFF00, 0x24)
    ensures Shows(x, 0xFF00, 0x34)
    ensures Shows(x, 0xFF00, 0x44)
    ensures Shows(x, 0x3F00, 0x54)
    ensures Shows(x, 0x3F00, 0x64)
    ensures Shows(x, 0x3F00, 0x74)
    ensures Shows(x, 0x3F00, 0x84)
  {
  }

  lemma ImmediateRowShows(x: bv32)
    ensures Shows(x, 0xFFFFF00, 0x200000A6)
    ensures Shows(x, 0xFFFFF00, 0x20000096)
    ensures Shows(x, 0xFFFFF00, 0x20000046)
    ensures Shows(x, 0xFFFEE00, 0x20000056)
  {
  }

  lemma OffsetRowShows(x: bv32)
    ensures Shows(x, 0xFFFFF00, 0x20000066)
    ensures Shows(x, 0xFFFEE00, 0x20000076)
    ensures Shows(x, 0xFFFE000, 0x20000086)
  {
  }

  lemma SpecRowShows(x: bv32)
    ensures Shows(x, 0x7FF00, 0x20000016)
    ensures Shows(x, 0x7FF00, 0x20000026)
  {
  }

  lemma PushRowShows(x: bv32)
    ensures Shows(x, 0xF800, 0x194)
    ensures Shows(x, 0xF800, 0x594)
    ensures Shows(x, 0x7000, 0x8394)
  {
  }

  lemma PopRowShows(x: bv32)
    ensures Shows(x, 0xF800, 0x94)
    ensures Shows(x, 0xF800, 0x494)
    ensures Shows(x, 0x7000, 0x8294)
  {
  }

  lemma StackRowShows(x: bv32)
    ensures Shows(x, 0x7FF00, 0x20000016)
    ensures Shows(x, 0x7FF00, 0x20000026)
    ensures Shows(x, 0xF800, 0x194)
    ensures Shows(x, 0xF800, 0x594)
    ensures Shows(x, 0x7000, 0x8394)
    ensures Shows(x, 0xF800, 0x94)
    ensures Shows(x, 0xF800, 0x494)
    ensures Shows(x, 0x7000, 0x8294)
  {
    SpecRowShows(x);
    PushRowShows(x);
    PopRowShows(x);
  }

  lemma MoveRowShows(x: bv32)
    ensures Shows(x, 0xFE00, 0xA4)
    ensures Shows(x, 0xFE00, 0x1A4)
    ensures Shows(x, 0x7E00, 0xC4)
    ensures Shows(x, 0xFF00, 0xB4)
    ensures Shows(x, 0x1FF00, 0x200000C6)
    ensures Shows(x, 0x1FF00, 0x200000B6)
    ensures Shows(x, 0x1FFFF00, 0x200000D6)
  {
  }

  lemma BranchRowShows(x: bv32)
    ensures Shows(x, 0xFFFF00, 0x20000042)
    ensures Shows(x, 0xFFFF00, 0x22000042)
    ensures Shows(x, 0xFFFF00, 0x21000042)
    ensures Shows(x, 0x700, 0x40)
    ensures Shows(x, 0x700, 0x2040)
    ensures Shows(x, 0x700, 0x1040)
  {
  }

  lemma CallRowShows(x: bv32)
    ensures Shows(x, 0xFFFF00, 0x20000022)
    ensures Shows(x, 0xFFFF00, 0x22000022)
    ensures Shows(x, 0xFFFF00, 0x21000022)
    ensures Shows(x, 0x700, 0x20)
    ensures Shows(x, 0x700, 0x2020)
    ensures Shows(x, 0x700, 0x1020)
  {
  }

  lemma ReturnRowShows(x: bv32)
    ensures Shows(x, 0x0, 0x30)
    ensures Shows(x, 0x0, 0x2030)
    ensures Shows(x, 0x0, 0x1030)
    ensures Shows(x, 0x0, 0x50)
    ensures Shows(x, 0x0, 0x2050)
    ensures Shows(x, 0x0, 0x1050)
    ensures Shows(x, 0x0, 0x60)
    ensures Shows(x, 0x0, 0x70)
    ensures Shows(x, 0xFFFF00, 0x20000012)
    ensures Shows(x, 0x0, 0xF0)
  {
  }

  /** The word without the operand bits it shows. */
  function Identity(x: bv32): bv32 {
    Without(x, FieldsOf(x))
  }

  ghost predicate Tells(r: Row, x: bv32) {
    Apart(r) && (MatchesRow(r, x) ==> Identity(x) == FixedBits(r))
  }

  lemma TellsIf(r: Row, bits: bv32, fixed: bv32, x: bv32)
    requires Shaped(r, bits) && FixedBits(r) == fixed && Shows(x, bits, fixed)
    ensures Tells(r, x)
  {
  }

  lemma LogicRowTells(i: nat, x: bv32)
    requires 0 <= i < 8
    ensures Tells(LogicRow(i), x)
  {
    LogicRowShape();
    LogicRowShows(x);
    match i
    case 0 => TellsIf(LogicRow(0), 0x0, 0x0, x);
    case 1 => TellsIf(LogicRow(1), 0x1DDC00, 0x2000001E, x);
    case 2 => TellsIf(LogicRow(2), 0x1DDC00, 0x2000003E, x);
    case 3 => TellsIf(LogicRow(3), 0x1DDC00, 0x2000004E, x);
    case 4 => TellsIf(LogicRow(4), 0x1C1C00, 0x2000002E, x);
    case 5 => TellsIf(LogicRow(5), 0x1DFC00, 0x2000005E, x);
    case 6 => TellsIf(LogicRow(6), 0x1DFC00, 0x2000006E, x);
    case _ => TellsIf(LogicRow(7), 0x1DFC00, 0x2080006E, x);
  }

  lemma HalfLogicRowTells(i: nat, x: bv32)
    requires 8 <= i < 15
    ensures Tells(HalfLogicRow(i), x)
  {
    HalfLogicRowShape();
    HalfLogicRowShows(x);
    match i
    case 8 => TellsIf(HalfLogicRow(8), 0x1FFE00, 0x2020001E, x);
    case 9 => TellsIf(HalfLogicRow(9), 0x1FFE00, 0x2020003E, x);
    case 10 => TellsIf(HalfLogicRow(10), 0x1FFE00, 0x2020004E, x);
    case 11 => TellsIf(HalfLogicRow(11), 0x1E1E00, 0x2020002E, x);
    case 12 => TellsIf(HalfLogicRow(12), 0x1FFE00, 0x2020005E, x);
    case 13 => TellsIf(HalfLogicRow(13), 0x1FFE00, 0x2020006E, x);
    case _ => TellsIf(HalfLogicRow(14), 0x1FFE00, 0x20A0006E, x);
  }

  lemma ArithmeticRowTells(i: nat, x: bv32)
    requires 15 <= i < 21
    ensures Tells(ArithmeticRow(i), x)
  {
    ArithmeticRowShape();
    ArithmeticRowShows(x);
    match i
    case 15 => TellsIf(ArithmeticRow(15), 0xFF80, 0x38, x);
    case 16 => TellsIf(ArithmeticRow(16), 0xFF80, 0x48, x);
    case 17 => TellsIf(ArithmeticRow(17), 0x7F80, 0x18, x);
    case 18 => TellsIf(ArithmeticRow(18), 0x7F80, 0x28, x);
    case 19 => TellsIf(ArithmeticRow(19), 0xFF80, 0x58, x);
    case _ => TellsIf(ArithmeticRow(20), 0xFF80, 0x68, x);
  }

  lemma CompareRowTells(i: nat, x: bv32)
    requires 21 <= i < 31
    ensures Tells(CompareRow(i), x)
  {
    CompareRowShape();
    CompareRowShows(x);
    match i
    case 21 => TellsIf(CompareRow(21), 0x301FE00, 0x2000001A, x);
    case 22 => TellsIf(CompareRow(22), 0x301FE00, 0x2400001A, x);
    case 23 => TellsIf(CompareRow(23), 0x301FE00, 0x2800001A, x);
    case 24 => TellsIf(CompareRow(24), 0x301FE00, 0x2800001A, x);
    case 25 => TellsIf(CompareRow(25), 0x301FE00, 0x2C00001A, x);
    case 26 => TellsIf(CompareRow(26), 0x301FE00, 0x2C00001A, x);
    case 27 => TellsIf(CompareRow(27), 0x301FE00, 0x3000001A, x);
    case 28 => TellsIf(CompareRow(28), 0x301FE00, 0x3000001A, x);
    case 29 => TellsIf(CompareRow(29), 0x301FE00, 0x3400001A, x);
    case _ => TellsIf(CompareRow(30), 0x301FE00, 0x3400001A, x);
  }

  lemma MemoryRowTells(i: nat, x: bv32)
    requires 31 <= i < 39
    ensures Tells(MemoryRow(i), x)
  {
    MemoryRowShape();
    MemoryRowShows(x);
    match i
    case 31 => TellsIf(MemoryRow(31), 0xFF00, 0x14, x);
    case 32 => TellsIf(MemoryRow(32), 0xFF00, 0x24, x);
    case 33 => TellsIf(MemoryRow(33), 0xFF00, 0x34, x);
    case 34 => TellsIf(MemoryRow(34), 0xFF00, 0x44, x);
    case 35 => TellsIf(MemoryRow(35), 0x3F00, 0x54, x);
    case 36 => TellsIf(MemoryRow(36), 0x3F00, 0x64, x);
    case 37 => TellsIf(MemoryRow(37), 0x3F00, 0x74, x);
    case _ => TellsIf(MemoryRow(38), 0x3F00, 0x84, x);
  }

  lemma ImmediateRowTells(i: nat, x: bv32)
    requires 39 <= i < 47
    ensures Tells(ImmediateRow(i), x)
  {
    ImmediateRowShape();
    ImmediateRowShows(x);
    match i
    case 39 => TellsIf(ImmediateRow(39), 0xFFFFF00, 0x200000A6, x);
    case 40 => TellsIf(ImmediateRow(40), 0xFFFFF00, 0x20000096, x);
    case 41 => TellsIf(ImmediateRow(41), 0xFFFFF00, 0x20000096, x);
    case 42 => TellsIf(ImmediateRow(42), 0xFFFFF00, 0x20000096, x);
    case 43 => TellsIf(ImmediateRow(43), 0xFFFFF00, 0x20000046, x);
    case 44 => TellsIf(ImmediateRow(44), 0xFFFFF00, 0x20000046, x);
    case 45 => TellsIf(ImmediateRow(45), 0xFFFEE00, 0x20000056, x);
    case _ => TellsIf(ImmediateRow(46), 0xFFFEE00, 0x20000056, x);
  }

  lemma OffsetRowTells(i: nat, x: bv32)
    requires 47 <= i < 52
    ensures Tells(OffsetRow(i), x)
  {
    OffsetRowShape();
    OffsetRowShows(x);
    match i
    case 47 => TellsIf(OffsetRow(47), 0xFFFFF00, 0x20000066, x);
    case 48 => TellsIf(OffsetRow(48), 0xFFFFF00, 0x20000066, x);
    case 49 => TellsIf(OffsetRow(49), 0xFFFEE00, 0x20000076, x);
    case 50 => TellsIf(OffsetRow(50), 0xFFFEE00, 0x20000076, x);
    case _ => TellsIf(OffsetRow(51), 0xFFFE000, 0x20000086, x);
  }

  lemma StackRowTells(i: nat, x: bv32)
    requires 52 <= i < 60
    ensures Tells(StackRow(i), x)
  {
    StackRowShape();
    StackRowShows(x);
    match i
    case 52 => TellsIf(StackRow(52), 0x7FF00, 0x20000016, x);
    case 53 => TellsIf(StackRow(53), 0x7FF00, 0x20000026, x);
    case 54 => TellsIf(StackRow(54), 0xF800, 0x194, x);
    case 55 => TellsIf(StackRow(55), 0xF800, 0x594, x);
    case 56 => TellsIf(StackRow(56), 0x7000, 0x8394, x);
    case 57 => TellsIf(StackRow(57), 0xF800, 0x94, x);
    case 58 => TellsIf(StackRow(58), 0xF800, 0x494, x);
    case _ => TellsIf(StackRow(59), 0x7000, 0x8294, x);
  }

  lemma MoveRowTells(i: nat, x: bv32)
    requires 60 <= i < 67
    ensures Tells(MoveRow(i), x)
  {
    MoveRowShape();
    MoveRowShows(x);
    match i
    case 60 => TellsIf(MoveRow(60), 0xFE00, 0xA4, x);
    case 61 => TellsIf(MoveRow(61), 0xFE00, 0x1A4, x);
    case 62 => TellsIf(MoveRow(62), 0x7E00, 0xC4, x);
    case 63 => TellsIf(MoveRow(63), 0xFF00, 0xB4, x);
    case 64 => TellsIf(MoveRow(64), 0x1FF00, 0x200000C6, x);
    case 65 => TellsIf(MoveRow(65), 0x1FF00, 0x200000B6, x);
    case _ => TellsIf(MoveRow(66), 0x1FFFF00, 0x200000D6, x);
  }

  lemma BranchRowTells(i: nat, x: bv32)
    requires 67 <= i < 73
    ensures Tells(BranchRow(i), x)
  {
    BranchRowShape();
    BranchRowShows(x);
    match i
    case 67 => TellsIf(BranchRow(67), 0xFFFF00, 0x20000042, x);
    case 68 => TellsIf(BranchRow(68), 0xFFFF00, 0x22000042, x);
    case 69 => TellsIf(BranchRow(69), 0xFFFF00, 0x21000042, x);
    case 70 => TellsIf(BranchRow(70), 0x700, 0x40, x);
    case 71 => TellsIf(BranchRow(71), 0x700, 0x2040, x);
    case _ => TellsIf(BranchRow(72), 0x700, 0x1040, x);
  }

  lemma CallRowTells(i: nat, x: bv32)
    requires 73 <= i < 79
    ensures Tells(CallRow(i), x)
  {
    CallRowShape();
    CallRowShows(x);
    match i
    case 73 => TellsIf(CallRow(73), 0xFFFF00, 0x20000022, x);
    case 74 => TellsIf(CallRow(74), 0xFFFF00, 0x22000022, x);
    case 75 => TellsIf(CallRow(75), 0xFFFF00, 0x21000022, x);
    case 76 => TellsIf(CallRow(76), 0x700, 0x20, x);
    case 77 => TellsIf(CallRow(77), 0x700, 0x2020, x);
    case _ => TellsIf(CallRow(78), 0x700, 0x1020, x);
  }

  lemma ReturnRowTells(i: nat, x: bv32)
    requires 79 <= i < 89
    ensures Tells(ReturnRow(i), x)
  {
    ReturnRowShape();
    ReturnRowShows(x);
    match i
    case 79 => TellsIf(ReturnRow(79), 0x0, 0x30, x);
    case 80 => TellsIf(ReturnRow(80), 0x0, 0x2030, x);
    case 81 => TellsIf(ReturnRow(81), 0x0, 0x1030, x);
    case 82 => TellsIf(ReturnRow(82), 0x0, 0x50, x);
    case 83 => TellsIf(ReturnRow(83), 0x0, 0x2050, x);
    case 84 => TellsIf(ReturnRow(84), 0x0, 0x1050, x);
    case 85 => TellsIf(ReturnRow(85), 0x0, 0x60, x);
    case 86 => TellsIf(ReturnRow(86), 0x0, 0x70, x);
    case 87 => TellsIf(ReturnRow(87), 0xFFFF00, 0x20000012, x);
    case _ => TellsIf(ReturnRow(88), 0x0, 0xF0, x);
  }

  /** Every row that matches a word has the same fixed bits. */
  lemma RowTells(i: nat, x: bv32)
    requires i < ROWS
    ensures Tells(RowAt(i), x)
  {
    if i < 8 {
      LogicRowTells(i, x);
    } else if i < 15 {
      HalfLogicRowTells(i, x);
    } else if i < 21 {
      ArithmeticRowTells(i, x);
    } else if i < 31 {
      CompareRowTells(i, x);
    } else if i < 39 {
      MemoryRowTells(i, x);
    } else if i < 47 {
      ImmediateRowTells(i, x);
    } else if i < 52 {
      OffsetRowTells(i, x);
    } else if i < 60 {
      StackRowTells(i, x);
    } else if i < 67 {
      MoveRowTells(i, x);
    } else if i < 73 {
      BranchRowTells(i, x);
    } else if i < 79 {
      CallRowTells(i, x);
    } else {
      ReturnRowTells(i, x);
    }
  }

  lemma MatchesAgree(i: nat, j: nat, x: bv32)
    requires i < ROWS && j < ROWS && RowOk(RowAt(i)) && RowOk(RowAt(j))
    requires MatchesRow(RowAt(i), x) && MatchesRow(RowAt(j), x)
    ensures FixedBits(RowAt(i)) == FixedBits(RowAt(j))
  {
    RowTells(i, x);
    RowTells(j, x);
  }

  /** Assemble, then disassemble: the first row that matches the word of an instruction without a
      predicate, whatever follows it in memory, has the pattern that was assembled. */
  lemma DisassemblesAssembled(i: nat, inst: Instruction, notLast: bool, syms: Symbols, c: Code, next: bv16)
    requires i < ROWS && TableOk(Insns()) && inst.pred.None?
    requires TryRow(Insns()[i], inst, notLast, syms) == Emit(c)
    ensures var m := FirstMatch(Insns(), 0, Trimmed(WordOf(c, next)));
      m.Some? && m.value <= i && FixedBits(Insns()[m.value]) == FixedBits(Insns()[i])
  {
    var x := Trimmed(WordOf(c, next));
    RowTells(i, x);
    AssembledMatches(RowAt(i), inst, notLast, syms, c, next);
    var m := FirstMatch(Insns(), 0, x);
    assert MatchesRow(Insns()[i], x);
    MatchesAgree(m.value, i, x);
  }

  /** Every operand can be read back from the word of an encoded instruction. */
  lemma OperandsReadBack(i: nat, inst: Instruction, notLast: bool, syms: Symbols, c: Code, next: bv16, k: nat)
    requires i < ROWS && RowOk(RowAt(i)) && TryRow(RowAt(i), inst, notLast, syms) == Emit(c)
    requires k < |RowAt(i).defs|
    ensures |inst.ops| == |RowAt(i).defs| && DefOk(RowAt(i).defs[k])
    ensures Some(And(WordOf(c, next), FieldMask(RowAt(i).defs[k]))) == Piece(RowAt(i).defs[k], inst.ops[k], syms)
  {
    RowTells(i, 0);
    OperandReadBack(RowAt(i), inst, notLast, syms, c, next, k);
  }

  function LoadSymbol(name: string, reg: string): Instruction {
    Instruction(None, false, Ldimm16, [Operand(SymbolRef, name, 0), Operand(Reg, reg, 0)])
  }

  lemma PointerNumber()
    ensures RegNumber(Ptr(8, 4), "ptr2") == Some(2)
  {
  }

  lemma HalfNumber()
    ensures RegNumber(AccHalf(8, 4), "acc1l") == Some(2)
  {
  }

  lemma SamePiece(op: Operand, op': Operand, syms: Symbols)
    requires op.name == "ptr2" && op'.name == "acc1l"
    ensures Piece(Ptr(8, 4), op, syms) == Piece(AccHalf(8, 4), op', syms)
  {
    PointerNumber();
    HalfNumber();
  }

  lemma SamePieces(name: string, syms: Symbols)
    requires RowOk(RowAt(41)) && RowOk(RowAt(42))
    ensures Pieces(RowAt(41), LoadSymbol(name, "ptr2").ops, syms)
      == Pieces(RowAt(42), LoadSymbol(name, "acc1l").ops, syms)
  {
    SamePiece(LoadSymbol(name, "ptr2").ops[1], LoadSymbol(name, "acc1l").ops[1], syms);
  }

  /** Rows of one pattern and size encode alike what they turn into the same pieces. */
  lemma SamePatternEncodes(r: Row, r': Row, inst: Instruction, inst': Instruction, notLast: bool, syms: Symbols)
    requires RowOk(r) && RowOk(r') && r.pattern == r'.pattern && r.wide == r'.wide
    requires r.mnemonic == inst.mnemonic && r'.mnemonic == inst'.mnemonic && inst.pred.None? && inst'.pred.None?
    requires OperandMatch(r, inst.ops, 0) == Matches && OperandMatch(r', inst'.ops, 0) == Matches
    requires |inst.ops| == |r.defs| && |inst'.ops| == |r'.defs|
    requires Pieces(r, inst.ops, syms) == Pieces(r', inst'.ops, syms)
    ensures TryRow(r, inst, notLast, syms) == TryRow(r', inst', notLast, syms)
  {
  }

  /** The table is not injective: loading a symbol's address into an accumulator half is encoded like
      loading it into a pointer, because the two rows have one pattern. */
  lemma SymbolLoadAliases(name: string, notLast: bool, syms: Symbols)
    requires RowOk(RowAt(41)) && RowOk(RowAt(42))
    ensures TryRow(RowAt(41), LoadSymbol(name, "ptr2"), notLast, syms)
      == TryRow(RowAt(42), LoadSymbol(name, "acc1l"), notLast, syms)
  {
    SamePieces(name, syms);
    MatchExact(RowAt(41), LoadSymbol(name, "ptr2").ops, 0);
    MatchExact(RowAt(42), LoadSymbol(name, "acc1l").ops, 0);
    SamePatternEncodes(RowAt(41), RowAt(42), LoadSymbol(name, "ptr2"), LoadSymbol(name, "acc1l"), notLast, syms);
  }

}

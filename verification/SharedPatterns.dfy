/** When two instructions have one encoding: exactly when their rows share a pattern and their operands
    fill the fields alike. */
module SharedPatterns {
  import opened Words
  import opened Vliwdec
  import opened Encoding
  import opened InsnTable
  import opened UniqueEncoding
  import opened Disasm
  import opened InsnWords

  // ------------------------------------------- the rows that share a pattern

  /** The first row with the pattern of row `i`. Comparisons share theirs with the unsigned ones, loads
      and stores of an integer with those of a symbol. */
  function FirstLike(i: nat): nat {
    match i
    case 24 => 23
    case 26 => 25
    case 28 => 27
    case 30 => 29
    case 41 => 40
    case 42 => 40
    case 44 => 43
    case 46 => 45
    case 48 => 47
    case 50 => 49
    case _ => i
  }

  /** The row of given fixed bits: the unit and the size first, then the rest. */
  function RowOf(fixed: bv32): nat {
    if fixed & 0xE == 0x0 then ShortControl(fixed)
    else if fixed & 0xE == 0x2 then LongControl(fixed)
    else if fixed & 0xE == 0x4 then ShortMemory(fixed)
    else if fixed & 0xE == 0x6 then LongMemory(fixed)
    else if fixed & 0xE == 0x8 then ShortComputing(fixed)
    else if fixed & 0xE == 0xA then LongComputing(fixed)
    else LongBits(fixed)
  }

  function ShortControl(fixed: bv32): nat {
    if fixed == 0x0 then 0
    else if fixed == 0x40 then 70
    else if fixed == 0x2040 then 71
    else if fixed == 0x1040 then 72
    else if fixed == 0x20 then 76
    else if fixed == 0x2020 then 77
    else if fixed == 0x1020 then 78
    else if fixed == 0x30 then 79
    else if fixed == 0x2030 then 80
    else if fixed == 0x1030 then 81
    else if fixed == 0x50 then 82
    else if fixed == 0x2050 then 83
    else if fixed == 0x1050 then 84
    else if fixed == 0x60 then 85
    else if fixed == 0x70 then 86
    else 88
  }

  function LongControl(fixed: bv32): nat {
    if fixed == 0x20000042 then 67
    else if fixed == 0x22000042 then 68
    else if fixed == 0x21000042 then 69
    else if fixed == 0x20000022 then 73
    else if fixed == 0x22000022 then 74
    else if fixed == 0x21000022 then 75
    else 87
  }

  function ShortMemory(fixed: bv32): nat {
    if fixed == 0x14 then 31
    else if fixed == 0x24 then 32
    else if fixed == 0x34 then 33
    else if fixed == 0x44 then 34
    else if fixed == 0x54 then 35
    else if fixed == 0x64 then 36
    else if fixed == 0x74 then 37
    else if fixed == 0x84 then 38
    else if fixed == 0x194 then 54
    else if fixed == 0x594 then 55
    else if fixed == 0x8394 then 56
    else if fixed == 0x94 then 57
    else if fixed == 0x494 then 58
    else if fixed == 0x8294 then 59
    else if fixed == 0xA4 then 60
    else if fixed == 0x1A4 then 61
    else if fixed == 0xC4 then 62
    else 63
  }

  function LongMemory(fixed: bv32): nat {
    if fixed == 0x200000A6 then 39
    else if fixed == 0x20000096 then 40
    else if fixed == 0x20000046 then 43
    else if fixed == 0x20000056 then 45
    else if fixed == 0x20000066 then 47
    else if fixed == 0x20000076 then 49
    else if fixed == 0x20000086 then 51
    else if fixed == 0x20000016 then 52
    else if fixed == 0x20000026 then 53
    else if fixed == 0x200000C6 then 64
    else if fixed == 0x200000B6 then 65
    else 66
  }

  function ShortComputing(fixed: bv32): nat {
    if fixed == 0x38 then 15
    else if fixed == 0x48 then 16
    else if fixed == 0x18 then 17
    else if fixed == 0x28 then 18
    else if fixed == 0x58 then 19
    else 20
  }

  function LongComputing(fixed: bv32): nat {
    if fixed == 0x2000001A then 21
    else if fixed == 0x2400001A then 22
    else if fixed == 0x2800001A then 23
    else if fixed == 0x2C00001A then 25
    else if fixed == 0x3000001A then 27
    else 29
  }

  function LongBits(fixed: bv32): nat {
    if fixed == 0x2000001E then 1
    else if fixed == 0x2000003E then 2
    else if fixed == 0x2000004E then 3
    else if fixed == 0x2000002E then 4
    else if fixed == 0x2000005E then 5
    else if fixed == 0x2000006E then 6
    else if fixed == 0x2080006E then 7
    else if fixed == 0x2020001E then 8
    else if fixed == 0x2020003E then 9
    else if fixed == 0x2020004E then 10
    else if fixed == 0x2020002E then 11
    else if fixed == 0x2020005E then 12
    else if fixed == 0x2020006E then 13
    else 14
  }

  lemma LogicRowFound(i: nat)
    requires 0 <= i < 8
    ensures RowOf(FixedBits(LogicRow(i))) == FirstLike(i)
  {
    match i
    case 0 => assert FixedBits(LogicRow(0)) == 0x0;
    case 1 => assert FixedBits(LogicRow(1)) == 0x2000001E;
    case 2 => assert FixedBits(LogicRow(2)) == 0x2000003E;
    case 3 => assert FixedBits(LogicRow(3)) == 0x2000004E;
    case 4 => assert FixedBits(LogicRow(4)) == 0x2000002E;
    case 5 => assert FixedBits(LogicRow(5)) == 0x2000005E;
    case 6 => assert FixedBits(LogicRow(6)) == 0x2000006E;
    case _ => assert FixedBits(LogicRow(7)) == 0x2080006E;
  }

  lemma HalfLogicRowFound(i: nat)
    requires 8 <= i < 15
    ensures RowOf(FixedBits(HalfLogicRow(i))) == FirstLike(i)
  {
    match i
    case 8 => assert FixedBits(HalfLogicRow(8)) == 0x2020001E;
    case 9 => assert FixedBits(HalfLogicRow(9)) == 0x2020003E;
    case 10 => assert FixedBits(HalfLogicRow(10)) == 0x2020004E;
    case 11 => assert FixedBits(HalfLogicRow(11)) == 0x2020002E;
    case 12 => assert FixedBits(HalfLogicRow(12)) == 0x2020005E;
    case 13 => assert FixedBits(HalfLogicRow(13)) == 0x2020006E;
    case _ => assert FixedBits(HalfLogicRow(14)) == 0x20A0006E;
  }

  lemma ArithmeticRowFound(i: nat)
    requires 15 <= i < 21
    ensures RowOf(FixedBits(ArithmeticRow(i))) == FirstLike(i)
  {
    match i
    case 15 => assert FixedBits(ArithmeticRow(15)) == 0x38;
    case 16 => assert FixedBits(ArithmeticRow(16)) == 0x48;
    case 17 => assert FixedBits(ArithmeticRow(17)) == 0x18;
    case 18 => assert FixedBits(ArithmeticRow(18)) == 0x28;
    case 19 => assert FixedBits(ArithmeticRow(19)) == 0x58;
    case _ => assert FixedBits(ArithmeticRow(20)) == 0x68;
  }

  lemma CompareRowFound(i: nat)
    requires 21 <= i < 31
    ensures RowOf(FixedBits(CompareRow(i))) == FirstLike(i)
  {
    match i
    case 21 => assert FixedBits(CompareRow(21)) == 0x2000001A;
    case 22 => assert FixedBits(CompareRow(22)) == 0x2400001A;
    case 23 => assert FixedBits(CompareRow(23)) == 0x2800001A;
    case 24 => assert FixedBits(CompareRow(24)) == 0x2800001A;
    case 25 => assert FixedBits(CompareRow(25)) == 0x2C00001A;
    case 26 => assert FixedBits(CompareRow(26)) == 0x2C00001A;
    case 27 => assert FixedBits(CompareRow(27)) == 0x3000001A;
    case 28 => assert FixedBits(CompareRow(28)) == 0x3000001A;
    case 29 => assert FixedBits(CompareRow(29)) == 0x3400001A;
    case _ => assert FixedBits(CompareRow(30)) == 0x3400001A;
  }

  lemma MemoryRowFound(i: nat)
    requires 31 <= i < 39
    ensures RowOf(FixedBits(MemoryRow(i))) == FirstLike(i)
  {
    match i
    case 31 => assert FixedBits(MemoryRow(31)) == 0x14;
    case 32 => assert FixedBits(MemoryRow(32)) == 0x24;
    case 33 => assert FixedBits(MemoryRow(33)) == 0x34;
    case 34 => assert FixedBits(MemoryRow(34)) == 0x44;
    case 35 => assert FixedBits(MemoryRow(35)) == 0x54;
    case 36 => assert FixedBits(MemoryRow(36)) == 0x64;
    case 37 => assert FixedBits(MemoryRow(37)) == 0x74;
    case _ => assert FixedBits(MemoryRow(38)) == 0x84;
  }

  lemma ImmediateRowFound(i: nat)
    requires 39 <= i < 47
    ensures RowOf(FixedBits(ImmediateRow(i))) == FirstLike(i)
  {
    match i
    case 39 => assert FixedBits(ImmediateRow(39)) == 0x200000A6;
    case 40 => assert FixedBits(ImmediateRow(40)) == 0x20000096;
    case 41 => assert FixedBits(ImmediateRow(41)) == 0x20000096;
    case 42 => assert FixedBits(ImmediateRow(42)) == 0x20000096;
    case 43 => assert FixedBits(ImmediateRow(43)) == 0x20000046;
    case 44 => assert FixedBits(ImmediateRow(44)) == 0x20000046;
    case 45 => assert FixedBits(ImmediateRow(45)) == 0x20000056;
    case _ => assert FixedBits(ImmediateRow(46)) == 0x20000056;
  }

  lemma OffsetRowFound(i: nat)
    requires 47 <= i < 52
    ensures RowOf(FixedBits(OffsetRow(i))) == FirstLike(i)
  {
    match i
    case 47 => assert FixedBits(OffsetRow(47)) == 0x20000066;
    case 48 => assert FixedBits(OffsetRow(48)) == 0x20000066;
    case 49 => assert FixedBits(OffsetRow(49)) == 0x20000076;
    case 50 => assert FixedBits(OffsetRow(50)) == 0x20000076;
    case _ => assert FixedBits(OffsetRow(51)) == 0x20000086;
  }

  lemma StackRowFound(i: nat)
    requires 52 <= i < 60
    ensures RowOf(FixedBits(StackRow(i))) == FirstLike(i)
  {
    match i
    case 52 => assert FixedBits(StackRow(52)) == 0x20000016;
    case 53 => assert FixedBits(StackRow(53)) == 0x20000026;
    case 54 => assert FixedBits(StackRow(54)) == 0x194;
    case 55 => assert FixedBits(StackRow(55)) == 0x594;
    case 56 => assert FixedBits(StackRow(56)) == 0x8394;
    case 57 => assert FixedBits(StackRow(57)) == 0x94;
    case 58 => assert FixedBits(StackRow(58)) == 0x494;
    case _ => assert FixedBits(StackRow(59)) == 0x8294;
  }

  lemma MoveRowFound(i: nat)
    requires 60 <= i < 67
    ensures RowOf(FixedBits(MoveRow(i))) == FirstLike(i)
  {
    match i
    case 60 => assert FixedBits(MoveRow(60)) == 0xA4;
    case 61 => assert FixedBits(MoveRow(61)) == 0x1A4;
    case 62 => assert FixedBits(MoveRow(62)) == 0xC4;
    case 63 => assert FixedBits(MoveRow(63)) == 0xB4;
    case 64 => assert FixedBits(MoveRow(64)) == 0x200000C6;
    case 65 => assert FixedBits(MoveRow(65)) == 0x200000B6;
    case _ => assert FixedBits(MoveRow(66)) == 0x200000D6;
  }

  lemma BranchRowFound(i: nat)
    requires 67 <= i < 73
    ensures RowOf(FixedBits(BranchRow(i))) == FirstLike(i)
  {
    match i
    case 67 => assert FixedBits(BranchRow(67)) == 0x20000042;
    case 68 => assert FixedBits(BranchRow(68)) == 0x22000042;
    case 69 => assert FixedBits(BranchRow(69)) == 0x21000042;
    case 70 => assert FixedBits(BranchRow(70)) == 0x40;
    case 71 => assert FixedBits(BranchRow(71)) == 0x2040;
    case _ => assert FixedBits(BranchRow(72)) == 0x1040;
  }

  lemma CallRowFound(i: nat)
    requires 73 <= i < 79
    ensures RowOf(FixedBits(CallRow(i))) == FirstLike(i)
  {
    match i
    case 73 => assert FixedBits(CallRow(73)) == 0x20000022;
    case 74 => assert FixedBits(CallRow(74)) == 0x22000022;
    case 75 => assert FixedBits(CallRow(75)) == 0x21000022;
    case 76 => assert FixedBits(CallRow(76)) == 0x20;
    case 77 => assert FixedBits(CallRow(77)) == 0x2020;
    case _ => assert FixedBits(CallRow(78)) == 0x1020;
  }

  lemma ReturnRowFound(i: nat)
    requires 79 <= i < 89
    ensures RowOf(FixedBits(ReturnRow(i))) == FirstLike(i)
  {
    match i
    case 79 => assert FixedBits(ReturnRow(79)) == 0x30;
    case 80 => assert FixedBits(ReturnRow(80)) == 0x2030;
    case 81 => assert FixedBits(ReturnRow(81)) == 0x1030;
    case 82 => assert FixedBits(ReturnRow(82)) == 0x50;
    case 83 => assert FixedBits(ReturnRow(83)) == 0x2050;
    case 84 => assert FixedBits(ReturnRow(84)) == 0x1050;
    case 85 => assert FixedBits(ReturnRow(85)) == 0x60;
    case 86 => assert FixedBits(ReturnRow(86)) == 0x70;
    case 87 => assert FixedBits(ReturnRow(87)) == 0x20000012;
    case _ => assert FixedBits(ReturnRow(88)) == 0xF0;
  }

  lemma RowFound(i: nat)
    requires i < ROWS
    ensures RowOf(FixedBits(RowAt(i))) == FirstLike(i)
  {
    if i < 8 {
      LogicRowFound(i);
    } else if i < 15 {
      HalfLogicRowFound(i);
    } else if i < 21 {
      ArithmeticRowFound(i);
    } else if i < 31 {
      CompareRowFound(i);
    } else if i < 39 {
      MemoryRowFound(i);
    } else if i < 47 {
      ImmediateRowFound(i);
    } else if i < 52 {
      OffsetRowFound(i);
    } else if i < 60 {
      StackRowFound(i);
    } else if i < 67 {
      MoveRowFound(i);
    } else if i < 73 {
      BranchRowFound(i);
    } else if i < 79 {
      CallRowFound(i);
    } else {
      ReturnRowFound(i);
    }
  }

  /** Rows with the same fields in the same places. */
  predicate SameFields(r: Row, q: Row) {
    && FixedBits(r) == FixedBits(q) && r.pattern == q.pattern && r.wide == q.wide && |r.defs| == |q.defs|
    && forall k: nat :: k < |r.defs| ==> r.defs[k].offset == q.defs[k].offset && r.defs[k].width == q.defs[k].width
  }

  lemma CompareRowAlike(i: nat)
    requires 21 <= i < 31
    ensures 21 <= FirstLike(i) < 31 && SameFields(CompareRow(i), CompareRow(FirstLike(i)))
  {
    match i
    case 24 => assert SameFields(CompareRow(24), CompareRow(23));
    case 26 => assert SameFields(CompareRow(26), CompareRow(25));
    case 28 => assert SameFields(CompareRow(28), CompareRow(27));
    case 30 => assert SameFields(CompareRow(30), CompareRow(29));
    case _ =>
  }

  lemma ImmediateRowAlike(i: nat)
    requires 39 <= i < 47
    ensures 39 <= FirstLike(i) < 47 && SameFields(ImmediateRow(i), ImmediateRow(FirstLike(i)))
  {
    match i
    case 41 => assert SameFields(ImmediateRow(41), ImmediateRow(40));
    case 42 => assert SameFields(ImmediateRow(42), ImmediateRow(40));
    case 44 => assert SameFields(ImmediateRow(44), ImmediateRow(43));
    case 46 => assert SameFields(ImmediateRow(46), ImmediateRow(45));
    case _ =>
  }

  lemma OffsetRowAlike(i: nat)
    requires 47 <= i < 52
    ensures 47 <= FirstLike(i) < 52 && SameFields(OffsetRow(i), OffsetRow(FirstLike(i)))
  {
    match i
    case 48 => assert SameFields(OffsetRow(48), OffsetRow(47));
    case 50 => assert SameFields(OffsetRow(50), OffsetRow(49));
    case _ =>
  }

  lemma LikeFirst(i: nat)
    requires i < ROWS
    ensures FirstLike(i) < ROWS && SameFields(RowAt(i), RowAt(FirstLike(i)))
  {
    if 21 <= i < 31 {
      CompareRowAlike(i);
    } else if 39 <= i < 47 {
      ImmediateRowAlike(i);
    } else if 47 <= i < 52 {
      OffsetRowAlike(i);
    }
  }

  /** Two rows have the same fixed bits exactly when they are of one group, and then the same fields. */
  lemma SharePattern(i: nat, j: nat)
    requires i < ROWS && j < ROWS
    ensures FixedBits(RowAt(i)) == FixedBits(RowAt(j)) <==> FirstLike(i) == FirstLike(j)
    ensures FixedBits(RowAt(i)) == FixedBits(RowAt(j)) ==> SameFields(RowAt(i), RowAt(j))
  {
    RowFound(i);
    RowFound(j);
    LikeFirst(i);
    LikeFirst(j);
  }

  /** The groups, by name. */
  lemma SharingRows(i: nat, j: nat)
    requires i < j < ROWS
    ensures FixedBits(RowAt(i)) == FixedBits(RowAt(j)) <==>
      || (i == 23 && j == 24) || (i == 25 && j == 26) || (i == 27 && j == 28) || (i == 29 && j == 30)
      || (40 <= i && j <= 42)
      || (i == 43 && j == 44) || (i == 45 && j == 46) || (i == 47 && j == 48) || (i == 49 && j == 50)
  {
    SharePattern(i, j);
  }

  // ------------------------------------------------ words that are the same

  lemma SameMask(r: Row, q: Row, k: nat)
    requires SameFields(r, q) && k < |r.defs| && RowOk(r) && RowOk(q)
    ensures DefOk(r.defs[k]) && DefOk(q.defs[k]) && FieldMask(r.defs[k]) == FieldMask(q.defs[k])
  {
  }

  /** The instruction has no predicate and row `i` encodes it as `c`. */
  ghost predicate Assembled(i: nat, inst: Instruction, notLast: bool, syms: Symbols, c: Code) {
    && i < ROWS && RowOk(RowAt(i)) && inst.pred.None?
    && TryRow(RowAt(i), inst, notLast, syms) == Emit(c)
  }

  lemma SameWordSameFixed(i: nat, j: nat, a: Instruction, b: Instruction, notLast: bool, syms: Symbols, c: Code)
    requires Assembled(i, a, notLast, syms, c) && Assembled(j, b, notLast, syms, c)
    ensures FixedBits(RowAt(i)) == FixedBits(RowAt(j))
  {
    var x := Trimmed(WordOf(c, 0));
    RowTells(i, x);
    RowTells(j, x);
    AssembledMatches(RowAt(i), a, notLast, syms, c, 0);
    AssembledMatches(RowAt(j), b, notLast, syms, c, 0);
    MatchesAgree(i, j, x);
  }

  /** What the operands of an instruction put into the fields of its row. */
  function Filling(i: nat, inst: Instruction, syms: Symbols): seq<Option<bv32>>
    requires i < ROWS && RowOk(RowAt(i)) && |inst.ops| == |RowAt(i).defs|
  {
    Pieces(RowAt(i), inst.ops, syms)
  }

  lemma SameWordSameFilling(i: nat, j: nat, a: Instruction, b: Instruction, notLast: bool, syms: Symbols, c: Code)
    requires Assembled(i, a, notLast, syms, c) && Assembled(j, b, notLast, syms, c)
    requires SameFields(RowAt(i), RowAt(j))
    requires |a.ops| == |RowAt(i).defs| && |b.ops| == |RowAt(j).defs|
    ensures Filling(i, a, syms) == Filling(j, b, syms)
  {
    forall k: nat | k < |a.ops|
      ensures Filling(i, a, syms)[k] == Filling(j, b, syms)[k]
    {
      SameMask(RowAt(i), RowAt(j), k);
      OperandsReadBack(i, a, notLast, syms, c, 0, k);
      OperandsReadBack(j, b, notLast, syms, c, 0, k);
    }
  }

  /** Two instructions without predicates have one encoding if and only if their rows have one pattern
      and their operands fill its fields alike. */
  lemma SameEncodingIff(
      i: nat, j: nat, a: Instruction, b: Instruction, notLast: bool, syms: Symbols, c: Code, d: Code)
    requires Assembled(i, a, notLast, syms, c) && Assembled(j, b, notLast, syms, d)
    ensures |a.ops| == |RowAt(i).defs| && |b.ops| == |RowAt(j).defs|
    ensures c == d
      <==> FixedBits(RowAt(i)) == FixedBits(RowAt(j)) && Filling(i, a, syms) == Filling(j, b, syms)
  {
    MatchLength(RowAt(i), a.ops, 0);
    MatchLength(RowAt(j), b.ops, 0);
    SharePattern(i, j);
    if c == d {
      SameWordSameFixed(i, j, a, b, notLast, syms, c);
      SameWordSameFilling(i, j, a, b, notLast, syms, c);
    } else if FixedBits(RowAt(i)) == FixedBits(RowAt(j)) && Filling(i, a, syms) == Filling(j, b, syms) {
      SamePatternEncodes(RowAt(i), RowAt(j), a, b, notLast, syms);
    }
  }

  /** Rows of different groups never share a word. */
  lemma DifferentPatternsDifferentWords(
      i: nat, j: nat, a: Instruction, b: Instruction, notLast: bool, syms: Symbols, c: Code, d: Code)
    requires Assembled(i, a, notLast, syms, c) && Assembled(j, b, notLast, syms, d)
    requires FirstLike(i) != FirstLike(j)
    ensures c != d
  {
    SharePattern(i, j);
    SameEncodingIff(i, j, a, b, notLast, syms, c, d);
  }
}

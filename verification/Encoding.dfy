/** Instruction encoding: the operand encoders and the table search of sw/tools/asm/asm.c. */
module Encoding {
  import opened Words
  import opened WordBits
  import opened Vliwdec

  // ------------------------------------------------------------ parsed code

  datatype Kind = Reg | RegWithOffset | Integer | SymbolRef

  /** A parsed operand; `name` for registers and symbols, `offset` for integers. */
  datatype Operand = Operand(kind: Kind, name: string, offset: int)

  /** The mnemonics of the instruction table, and everything else the parser lets through. */
  datatype Mnemonic =
    | Nop | And32 | Or32 | Xor32 | Not32 | Shiftra32 | Shiftrl32 | Shiftll32
    | And16 | Or16 | Xor16 | Not16 | Shiftra16 | Shiftrl16 | Shiftll16
    | Add32 | Sub32 | Add16 | Sub16 | Mpy16 | Mac16
    | Cmp16eq | Cmp16ne | Cmp16lt | Cmp16ltu | Cmp16le | Cmp16leu | Cmp16gt | Cmp16gtu | Cmp16ge | Cmp16geu
    | Ld16 | Ldinc16 | St16 | Stinc16 | Ld32 | Ldinc32 | St32 | Stinc32
    | Ldimm16 | Ldoff16 | Ldoff32 | Stoff16 | Stoff32 | Addptr16 | Mvts16 | Mvfs16
    | Push16 | Push32 | Pop16 | Pop32 | Mv16 | Stext32 | Ldext32 | Extburst
    | Bra | Bra2ds | Bra1ds | Call | Call2ds | Call1ds
    | Rets | Rets2ds | Rets1ds | Reti | Reti2ds | Reti1ds | Eint | Dint | Bkrep | Halt
    | Unknown(text: string)

  datatype Instruction = Instruction(pred: Option<string>, predNeg: bool, mnemonic: Mnemonic, ops: seq<Operand>)

  // -------------------------------------------------------------- the table

  datatype Encoder = EncSpec | EncAcc | EncAccHalf | EncPtr | EncPred | EncReg | EncInt | EncSymref

  datatype OpDef = OpDef(kind: Kind, offset: bv32, width: bv32, encoder: Encoder)

  datatype Row = Row(mnemonic: Mnemonic, wide: bool, pattern: bv32, defs: seq<OpDef>)

  /** The symbol table, most recent first; pass 0 ignores symbol references. */
  type Table = seq<(string, Addr)>

  datatype Symbols = Ignored | Known(table: Table)

  function Lookup(table: Table, name: string): Option<Addr> {
    if table == [] then None
    else if table[0].0 == name then Some(table[0].1)
    else Lookup(table[1..], name)
  }

  // ------------------------------------------------------- operand encoders

  /** A C string ends in a zero byte. */
  function CharAt(name: string, i: nat): char {
    if i < |name| then name[i] else '\0'
  }

  /** `name[i] - '0'` in 32-bit unsigned arithmetic. */
  function Digit(name: string, i: nat): bv32 {
    ((CharAt(name, i) as int - '0' as int) % 0x1_0000_0000) as bv32
  }

  function SpecReg(name: string): Option<bv32> {
    if name == "retpc" then Some(1) else if name == "sp" then Some(2)
    else if name == "satctrl" then Some(3) else if name == "mulsign" then Some(4)
    else if name == "masksel" then Some(5) else if name == "mask0" then Some(6)
    else if name == "mask1" then Some(7) else if name == "modsel" then Some(8)
    else if name == "mod0" then Some(9) else if name == "mod1" then Some(10)
    else if name == "bitrev" then Some(11) else if name == "retipc" then Some(12)
    else if name == "pred" then Some(13) else if name == "bkrepcnt" then Some(14)
    else if name == "gpio2" then Some(30) else if name == "gpio" then Some(31)
    else None
  }

  /** `accNl` and `accNh`. */
  function HalfReg(name: string): Option<bv32> {
    if CharAt(name, 4) == 'l' then Some(Digit(name, 3) << 1)
    else if CharAt(name, 4) == 'h' then Some((Digit(name, 3) << 1) + 1)
    else None
  }

  function Mask(width: bv32): bv32
    requires width <= 31
  {
    (1 << width) - 1
  }

  /** The register number an encoder puts into its field, before it is cut to the field's width. */
  function RegNumber(d: OpDef, name: string): (r: Option<bv32>)
    requires !d.encoder.EncInt? && !d.encoder.EncSymref?
  {
    match d.encoder
    case EncSpec => SpecReg(name)
    case EncAcc => if "acc" <= name && CharAt(name, 4) == '\0' then Some(Digit(name, 3)) else None
    case EncAccHalf => if "acc" <= name then HalfReg(name) else None
    case EncPtr => if "ptr" <= name then Some(Digit(name, 3)) else None
    case EncPred => if "pred" <= name then Some(Digit(name, 4)) else None
    case EncReg =>
      if "ptr" <= name then Some(Digit(name, 3))
      else if "acc" <= name then HalfReg(name)
      else None
    case _ => None
  }

  /** A register number in its field; encode_reg tells accumulator halves from pointers by the top
      bit of the field. */
  function RegField(number: bv32, width: bv32, half: bool): bv32
    requires 1 <= width <= 16
  {
    if half then (number & Mask(width)) | (1 << (width - 1)) else number & Mask(width)
  }

  /** An integer, negative ones in two's complement, cut to the width of the field. */
  function IntField(value: int, width: bv32): bv32
    requires 1 <= width <= 16
  {
    (ToWord(value % 0x1_0000) as bv32) & Mask(width)
  }

  /** An address, cut to the width of the field. */
  function SymField(a: Addr, width: bv32): bv32
    requires 1 <= width <= 16
  {
    (ToWord(a) as bv32) & Mask(width)
  }

  predicate IsHalf(d: OpDef, name: string) {
    d.encoder == EncReg && !("ptr" <= name)
  }

  predicate InRange(d: OpDef, offset: int)
    requires 1 <= d.width <= 16
  {
    offset < ((1 as bv32) << d.width) as int
  }

  /** The operands an encoder takes, whatever the symbols turn out to be. */
  predicate Accepts(d: OpDef, op: Operand)
    requires 1 <= d.width <= 16
  {
    match d.encoder
    case EncInt => InRange(d, op.offset)
    case EncSymref => true
    case _ => RegNumber(d, op.name).Some?
  }

  /** The symbol an operand wants is defined. */
  predicate Resolved(d: OpDef, op: Operand, syms: Symbols) {
    d.encoder.EncSymref? && syms.Known? ==> Lookup(syms.table, op.name).Some?
  }

  /** The field an encoder ORs into the pattern, before it is shifted into place. */
  function Field(d: OpDef, op: Operand, syms: Symbols): (f: Option<bv32>)
    requires 1 <= d.width <= 16
    ensures f.Some? <==> Accepts(d, op) && Resolved(d, op, syms)
  {
    match d.encoder
    case EncInt =>
      if InRange(d, op.offset) then Some(IntField(op.offset, d.width)) else None
    case EncSymref =>
      (match syms
       case Ignored => Some(0)
       case Known(table) =>
         match Lookup(table, op.name)
         case Some(a) => Some(SymField(a, d.width))
         case None => None)
    case _ =>
      match RegNumber(d, op.name)
      case Some(r) => Some(RegField(r, d.width, IsHalf(d, op.name)))
      case None => None
  }

  /** The operand fields of a row lie above the parallel and size bits. */
  predicate DefOk(d: OpDef) {
    2 <= d.offset <= 31 && 1 <= d.width <= 16
  }

  ghost predicate RowOk(r: Row) {
    r.pattern & 3 == 0 && forall k :: 0 <= k < |r.defs| ==> DefOk(r.defs[k])
  }

  ghost predicate TableOk(rows: seq<Row>) {
    forall i :: 0 <= i < |rows| ==> RowOk(rows[i])
  }

  function Placed(f: bv32, offset: bv32): bv32
    requires offset <= 31
  {
    f << offset
  }

  /** What an encoder ORs into the pattern. */
  function Piece(d: OpDef, op: Operand, syms: Symbols): Option<bv32>
    requires DefOk(d)
  {
    match Field(d, op, syms)
    case None => None
    case Some(f) => Some(Placed(f, d.offset))
  }

  lemma ShiftedLow(f: bv32, offset: bv32)
    requires 2 <= offset <= 31
    ensures Placed(f, offset) & 3 == 0
  {
  }

  lemma PieceLow(d: OpDef, op: Operand, syms: Symbols)
    requires DefOk(d) && Piece(d, op, syms).Some?
    ensures Piece(d, op, syms).value & 3 == 0
  {
    ShiftedLow(Field(d, op, syms).value, d.offset);
  }

  function Pieces(r: Row, ops: seq<Operand>, syms: Symbols): (pieces: seq<Option<bv32>>)
    requires RowOk(r) && |ops| == |r.defs|
    ensures |pieces| == |ops|
    ensures forall k: nat :: k < |ops| ==> DefOk(r.defs[k]) && pieces[k] == Piece(r.defs[k], ops[k], syms)
  {
    seq(|ops|, k requires 0 <= k < |ops| && DefOk(r.defs[k]) => Piece(r.defs[k], ops[k], syms))
  }

  function Or(a: bv32, b: bv32): bv32 {
    a | b
  }

  function And(a: bv32, b: bv32): bv32 {
    a & b
  }

  function PutOne(pattern: bv32, piece: Option<bv32>): Option<bv32> {
    if piece.None? then None else Some(Or(pattern, piece.value))
  }

  /** ORs the first `n` pieces into the pattern; one failure fails the whole. */
  function PutAll(start: bv32, pieces: seq<Option<bv32>>, n: nat): Option<bv32>
    requires n <= |pieces|
  {
    if n == 0 then Some(start)
    else
      match PutAll(start, pieces, n - 1)
      case None => None
      case Some(p) => PutOne(p, pieces[n - 1])
  }

  lemma OrKeepsLow(p: bv32, q: bv32)
    requires q & 3 == 0
    ensures Or(p, q) & 3 == p & 3
  {
  }

  lemma {:induction false} PutAllKeepsLow(start: bv32, pieces: seq<Option<bv32>>, n: nat)
    requires n <= |pieces| && forall k: nat :: k < n && pieces[k].Some? ==> pieces[k].value & 3 == 0
    ensures PutAll(start, pieces, n).Some? ==> PutAll(start, pieces, n).value & 3 == start & 3
  {
    if n > 0 && PutAll(start, pieces, n).Some? {
      PutAllKeepsLow(start, pieces, n - 1);
      OrKeepsLow(PutAll(start, pieces, n - 1).value, pieces[n - 1].value);
    }
  }

  lemma {:induction false} PutAllExists(start: bv32, pieces: seq<Option<bv32>>, n: nat)
    requires n <= |pieces|
    ensures PutAll(start, pieces, n).Some? <==> forall k: nat :: k < n ==> pieces[k].Some?
  {
    if n > 0 {
      PutAllExists(start, pieces, n - 1);
    }
  }

  function StartOf(r: Row, notLast: bool): bv32 {
    Started(r.pattern, notLast)
  }

  /** Not last in the bundle: the parallel bit. */
  function Started(pattern: bv32, notLast: bool): bv32 {
    if notLast then pattern | 1 else pattern
  }

  /** The pattern with its operands, before the predicate. */
  function Body(r: Row, inst: Instruction, notLast: bool, syms: Symbols): Option<bv32>
    requires RowOk(r) && |inst.ops| == |r.defs|
  {
    PutAll(StartOf(r, notLast), Pieces(r, inst.ops, syms), |inst.ops|)
  }

  lemma BodyLow(r: Row, inst: Instruction, notLast: bool, syms: Symbols)
    requires RowOk(r) && |inst.ops| == |r.defs| && Body(r, inst, notLast, syms).Some?
    ensures Body(r, inst, notLast, syms).value & 3 == StartOf(r, notLast) & 3
  {
    var pieces := Pieces(r, inst.ops, syms);
    forall k: nat | k < |pieces| && pieces[k].Some?
      ensures pieces[k].value & 3 == 0
    {
      PieceLow(r.defs[k], inst.ops[k], syms);
    }
    PutAllKeepsLow(StartOf(r, notLast), pieces, |pieces|);
  }

  lemma BodyExists(r: Row, inst: Instruction, notLast: bool, syms: Symbols)
    requires RowOk(r) && |inst.ops| == |r.defs|
    ensures Body(r, inst, notLast, syms).Some?
      <==> forall k: nat :: k < |inst.ops| ==> Accepts(r.defs[k], inst.ops[k]) && Resolved(r.defs[k], inst.ops[k], syms)
  {
    var pieces := Pieces(r, inst.ops, syms);
    PutAllExists(StartOf(r, notLast), pieces, |pieces|);
    assert forall k: nat :: k < |pieces| ==>
      (pieces[k].Some? <==> Accepts(r.defs[k], inst.ops[k]) && Resolved(r.defs[k], inst.ops[k], syms));
  }

  // --------------------------------------------------------- table search

  /** operand_match, with the null dereference it runs into when the list of operands is a proper
      prefix of what the row wants. */
  datatype Match = Matches | Differs | NullOperand

  function OperandMatch(r: Row, ops: seq<Operand>, j: nat): Match
    decreases |r.defs| - j
  {
    if j >= |r.defs| then
      if j == |ops| then Matches else Differs
    else if j >= |ops| then NullOperand
    else if r.defs[j].kind != ops[j].kind then Differs
    else OperandMatch(r, ops, j + 1)
  }

  lemma {:induction false} MatchLength(r: Row, ops: seq<Operand>, j: nat)
    requires j <= |r.defs| && j <= |ops|
    requires OperandMatch(r, ops, j) == Matches
    ensures |ops| == |r.defs|
    ensures forall k :: j <= k < |ops| ==> r.defs[k].kind == ops[k].kind
    decreases |r.defs| - j
  {
    if j < |r.defs| {
      MatchLength(r, ops, j + 1);
    }
  }

  /** The leading decimal digits, as atoi reads them, modulo 4. */
  function Atoi4(s: string, i: nat, acc: nat): (n: nat)
    requires acc < 4
    ensures n < 4
    decreases |s| - i
  {
    if i < |s| && '0' <= s[i] <= '9'
    then Atoi4(s, i + 1, (acc * 10 + (s[i] as int - '0' as int)) % 4)
    else acc
  }

  function TwoBits(n: nat): bv32
    requires n < 4
  {
    if n == 0 then 0 else if n == 1 then 1 else if n == 2 then 2 else 3
  }

  const PRED_NEG_BIT: bv32 := 0x1000_0000

  function Predicated(p: bv32, neg: bool, reg: bv32): bv32 {
    ((if neg then p | PRED_NEG_BIT else p) & 0x3FFF_FFFF) | (reg << 30)
  }

  /** The predicate goes into the top bits. */
  function PutPred(p: bv32, inst: Instruction): Option<bv32> {
    match inst.pred
    case None => Some(p)
    case Some(name) =>
      if "pred" <= name then
        Some(Predicated(p, inst.predNeg, TwoBits(Atoi4(name, 4, 0))))
      else None
  }

  /** A row's answer to an instruction: not this row, or the words it emits. */
  datatype Answer = Skip | Crash | Emit(code: Code)

  function Occupies32(r: Row, inst: Instruction): bool {
    r.wide || inst.pred.Some?
  }

  function LowHalf(p: bv32): bv16 {
    (p & 0xFFFF) as bv16
  }

  function HighHalf(p: bv32): bv16 {
    (p >> 16) as bv16
  }

  /** The words of a finished pattern. */
  function CodeFor(p: bv32, wide: bool): Code {
    if wide then Long(LowHalf(Or(p, 2)), HighHalf(Or(p, 2))) else Short(LowHalf(And(p, 0xFFFD)))
  }

  function Pattern(r: Row, inst: Instruction, notLast: bool, syms: Symbols): Option<bv32>
    requires RowOk(r) && |inst.ops| == |r.defs|
  {
    match Body(r, inst, notLast, syms)
    case None => None
    case Some(p) => PutPred(p, inst)
  }

  function TryRow(r: Row, inst: Instruction, notLast: bool, syms: Symbols): Answer
    requires RowOk(r)
  {
    if r.mnemonic != inst.mnemonic then Skip
    else
      match OperandMatch(r, inst.ops, 0)
      case NullOperand => Crash
      case Differs => Skip
      case Matches =>
        MatchLength(r, inst.ops, 0);
        match Pattern(r, inst, notLast, syms)
        case None => Skip
        case Some(p) => Emit(CodeFor(p, Occupies32(r, inst)))
  }

  datatype Emission = Crashed | Emitted(codes: seq<Code>)

  function Answers(rows: seq<Row>, inst: Instruction, notLast: bool, syms: Symbols): (answers: seq<Answer>)
    requires TableOk(rows)
    ensures |answers| == |rows|
    ensures forall i :: 0 <= i < |rows| ==> answers[i] == TryRow(rows[i], inst, notLast, syms)
  {
    seq(|rows|, i requires 0 <= i < |rows| => TryRow(rows[i], inst, notLast, syms))
  }

  /** The search goes over the whole table: it does not stop at a row that encodes. */
  function Gather(answers: seq<Answer>, n: nat): Emission
    requires n <= |answers|
  {
    if n == 0 then Emitted([])
    else
      match Gather(answers, n - 1)
      case Crashed => Crashed
      case Emitted(codes) =>
        match answers[n - 1]
        case Crash => Crashed
        case Skip => Emitted(codes)
        case Emit(c) => Emitted(codes + [c])
  }

  function Encode(rows: seq<Row>, inst: Instruction, notLast: bool, syms: Symbols): Emission
    requires TableOk(rows)
  {
    Gather(Answers(rows, inst, notLast, syms), |rows|)
  }

  // ------------------------------------------------ what every row emits

  lemma PredBitsKeepLow(p: bv32, neg: bool, reg: bv32)
    ensures Predicated(p, neg, reg) & 3 == p & 3
  {
  }

  lemma PutPredKeepsLow(p: bv32, inst: Instruction)
    requires PutPred(p, inst).Some?
    ensures PutPred(p, inst).value & 3 == p & 3
  {
    if inst.pred.Some? {
      PredBitsKeepLow(p, inst.predNeg, TwoBits(Atoi4(inst.pred.value, 4, 0)));
    }
  }

  lemma LowBit(pattern: bv32, p: bv32, q: bv32, notLast: bool)
    requires pattern & 3 == 0 && q & 3 == p & 3 && p & 3 == Started(pattern, notLast) & 3
    ensures q & 1 == 1 <==> notLast
  {
  }

  lemma PatternLow(r: Row, inst: Instruction, notLast: bool, syms: Symbols, p: bv32)
    requires RowOk(r) && |inst.ops| == |r.defs| && Body(r, inst, notLast, syms) == Some(p)
    requires PutPred(p, inst).Some?
    ensures PutPred(p, inst).value & 1 == 1 <==> notLast
  {
    BodyLow(r, inst, notLast, syms);
    PutPredKeepsLow(p, inst);
    LowBit(r.pattern, p, PutPred(p, inst).value, notLast);
  }

  lemma CodeForLow(p: bv32, wide: bool)
    ensures Par(CodeFor(p, wide).lo) <==> p & 1 == 1
    ensures Wide(CodeFor(p, wide).lo) <==> wide
  {
  }

  /** Whatever row encodes an instruction, the size bit is the instruction's size and the parallel
      bit says whether another instruction follows. */
  lemma EmittedBits(r: Row, inst: Instruction, notLast: bool, syms: Symbols)
    requires RowOk(r) && TryRow(r, inst, notLast, syms).Emit?
    ensures var c := TryRow(r, inst, notLast, syms).code;
      c.SizeBitOk() && (Par(c.lo) <==> notLast) && (c.Long? <==> Occupies32(r, inst))
  {
    MatchLength(r, inst.ops, 0);
    PatternLow(r, inst, notLast, syms, Body(r, inst, notLast, syms).value);
    CodeForLow(Pattern(r, inst, notLast, syms).value, Occupies32(r, inst));
  }
}

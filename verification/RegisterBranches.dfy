/** Branches and calls through a pointer register: they assemble, reach the control unit, and never jump.
    The 16-bit cases are commented out in the source (rtl/verilog/pcu.v:362-378). */
module RegisterBranches {
  import opened Words
  import opened Vliwdec
  import opened Encoding
  import opened UniqueEncoding
  import opened InsnTable
  import opened Disasm
  import opened InsnWords
  import opened AsmPasses
  import opened PassAgreement
  import opened AsmImage
  import opened JumpTargets
  import opened PredicateBits
  import opened Toolchain
  import opened LinkedPrograms
  import Vliwfetch
  import Pcu
  import Isa
  import CoreRefinement

  // ------------------------------------------------------ what they encode to

  /** The rows of branches and calls through a pointer register. */
  predicate RegisterIndex(i: nat) {
    70 <= i <= 72 || 76 <= i <= 78
  }

  /** Bits 7..2: instruction type and unit. */
  const TYPE_BITS: bv32 := 0xFC

  /** A row for the control unit, in the 16-bit encoding space, whose operands spare the type. */
  ghost predicate RegisterRow(r: Row, kind: bv32) {
    && Apart(r) && And(OperandBits(r, |r.defs|), TYPE_BITS) == 0
    && And(r.pattern, TYPE_BITS) == kind && And(r.pattern, UNIT_BITS) == 0
    && !r.wide && |r.defs| == 1
  }

  /** A pattern with these type bits and no unit bits. */
  predicate TypedAs(pattern: bv32, kind: bv32) {
    And(pattern, TYPE_BITS) == kind && And(pattern, UNIT_BITS) == 0
  }

  /** The patterns of these rows, with no delay slots, one and two. */
  predicate RegisterPattern(pattern: bv32, kind: bv32) {
    || (kind == 0x40 && (pattern == 0x40 || pattern == 0x1040 || pattern == 0x2040))
    || (kind == 0x20 && (pattern == 0x20 || pattern == 0x1020 || pattern == 0x2020))
  }

  lemma PatternTyped(pattern: bv32, kind: bv32)
    requires RegisterPattern(pattern, kind)
    ensures TypedAs(pattern, kind)
  {
  }

  lemma PointerField()
    ensures And(FieldMask(Ptr(8, 3)), TYPE_BITS) == 0
  {
  }

  lemma NothingBefore(f: bv32)
    ensures Or(0, f) == f
  {
  }

  lemma RegisterRowIf(r: Row, kind: bv32)
    requires Apart(r) && RegisterPattern(r.pattern, kind) && !r.wide && r.defs == [Ptr(8, 3)]
    ensures RegisterRow(r, kind)
  {
    UnrollBits(r);
    NothingBefore(FieldMask(Ptr(8, 3)));
    PatternTyped(r.pattern, kind);
    PointerField();
  }

  lemma RegisterDefs(i: nat)
    requires RegisterIndex(i)
    ensures RowAt(i).defs == [Ptr(8, 3)] && !RowAt(i).wide
    ensures RegisterPattern(RowAt(i).pattern, if i <= 72 then 0x40 else 0x20)
  {
  }

  lemma RegisterRowAt(i: nat)
    requires RegisterIndex(i)
    ensures RegisterRow(RowAt(i), if i <= 72 then 0x40 else 0x20)
  {
    RowTargets(i);
    RegisterDefs(i);
    RegisterRowIf(RowAt(i), if i <= 72 then 0x40 else 0x20);
  }

  lemma StartKeeps(pattern: bv32, notLast: bool, mask: bv32)
    requires And(mask, 0xFFFF_0003) == 0
    ensures And(Started(pattern, notLast), mask) == And(pattern, mask)
  {
  }

  lemma LowMask(mask: bv32)
    requires And(mask, 0xFFFF_0003) == 0
    ensures And(mask, 0xF000_0003) == 0 && And(mask, 0xFFFF_0000) == 0
  {
  }

  /** Low bits that no operand touches are the row's in the word, whatever the operands, predicate and
      size. */
  lemma WordKeepsLow(r: Row, inst: Instruction, notLast: bool, syms: Symbols, c: Code, next: bv16, mask: bv32)
    requires Apart(r) && And(OperandBits(r, |r.defs|), mask) == 0 && And(mask, 0xFFFF_0003) == 0
    requires TryRow(r, inst, notLast, syms) == Emit(c)
    ensures And(WordOf(c, next), mask) == And(r.pattern, mask)
  {
    MatchLength(r, inst.ops, 0);
    var p, pieces := Body(r, inst, notLast, syms).value, Pieces(r, inst.ops, syms);
    forall j: nat | j < |pieces| && pieces[j].Some?
      ensures And(pieces[j].value, mask) == 0
    {
      PieceFits(r.defs[j], inst.ops[j], syms);
      FieldInOperandBits(r, j, |r.defs|);
      SmallerPart(pieces[j].value, FieldMask(r.defs[j]), OperandBits(r, |r.defs|), mask);
    }
    PutAllOutside(StartOf(r, notLast), pieces, |pieces|, mask);
    StartKeeps(r.pattern, notLast, mask);
    LowMask(mask);
    PutPredKeeps(p, inst, mask);
    WordKeeps(p, PutPred(p, inst).value, Occupies32(r, inst), next, mask);
  }

  lemma TypeBitsLow()
    ensures And(TYPE_BITS, 0xFFFF_0003) == 0
  {
  }

  lemma TypeFromWord(lo: bv16, next: bv16, hi: bv16)
    ensures And(Disasm.Joined(lo, next), TYPE_BITS) == 0x40 ==>
      Pcu.ForPcu(Wire(lo, hi)) && Pcu.TypeOf(Wire(lo, hi)) == Pcu.JumpAbs
    ensures And(Disasm.Joined(lo, next), TYPE_BITS) == 0x20 ==>
      Pcu.ForPcu(Wire(lo, hi)) && Pcu.TypeOf(Wire(lo, hi)) == Pcu.CallAbs
  {
  }

  lemma NotEncoded32(lo: bv16, hi: bv16)
    requires And(Disasm.Joined(lo, hi), UNIT_BITS) == 0
    ensures !Pcu.EncBit(Wire(lo, hi))
  {
  }

  /** What the control unit reads when it is handed the instruction. */
  predicate Reads(w: Wire, c: Code) {
    w.lo == c.lo && (c.Long? ==> w.hi == c.hi)
  }

  lemma RegisterRowReads(
      r: Row, kind: bv32, inst: Instruction, notLast: bool, syms: Symbols, c: Code, w: Wire)
    requires RegisterRow(r, kind) && (kind == 0x40 || kind == 0x20)
    requires TryRow(r, inst, notLast, syms) == Emit(c) && Reads(w, c)
    ensures Pcu.ForPcu(w) && !Pcu.Fields(w).Enc32() && (Pcu.Fields(w).wide <==> inst.pred.Some?)
    ensures Pcu.Fields(w).itype == if kind == 0x40 then Pcu.JumpAbs else Pcu.CallAbs
  {
    TypeBitsLow();
    WordKeepsLow(r, inst, notLast, syms, c, 0, TYPE_BITS);
    TypeFromWord(c.lo, if c.Long? then c.hi else 0, w.hi);
    EmittedBits(r, inst, notLast, syms);
    if c.Long? {
      MatchLength(r, inst.ops, 0);
      LongUnit(r, inst, notLast, syms, c);
      NotEncoded32(c.lo, c.hi);
    }
  }

  lemma LongUnit(r: Row, inst: Instruction, notLast: bool, syms: Symbols, c: Code)
    requires Apart(r) && And(OperandBits(r, |r.defs|), TYPE_BITS) == 0 && !r.wide
    requires TryRow(r, inst, notLast, syms) == Emit(c) && c.Long? && And(r.pattern, UNIT_BITS) == 0
    ensures And(WordOf(c, 0), UNIT_BITS) == 0
  {
    UnitSpared(OperandBits(r, |r.defs|));
    CodeUnit(r, inst, notLast, syms, c);
  }

  lemma UnitSpared(bits: bv32)
    requires And(bits, TYPE_BITS) == 0 && And(bits, 0xFFFF_0000) == 0
    ensures And(bits, UNIT_BITS) == 0
  {
  }

  /** A branch or call through a register reaches the control unit as a jump or call of the 16-bit
      encoding space, with or without a predicate. */
  lemma RegisterMeaning(i: nat, inst: Instruction, notLast: bool, syms: Symbols, c: Code, w: Wire)
    requires RegisterIndex(i) && RowOk(RowAt(i)) && TryRow(RowAt(i), inst, notLast, syms) == Emit(c) && Reads(w, c)
    ensures Pcu.ForPcu(w) && !Pcu.Fields(w).Enc32() && (Pcu.Fields(w).wide <==> inst.pred.Some?)
    ensures Pcu.Fields(w).itype == if i <= 72 then Pcu.JumpAbs else Pcu.CallAbs
  {
    RegisterRowAt(i);
    RegisterRowReads(RowAt(i), if i <= 72 then 0x40 else 0x20, inst, notLast, syms, c, w);
  }

  // ------------------------------------------------- what the unit does with them

  /** Acting on one, the unit raises the jump line for nothing but a loop end or, where the predicate
      fails, an interrupt. */
  lemma RegisterNeverJumps(r: Pcu.PcuRegs, e: Pcu.Env, pc: Addr)
    requires Isa.ThroughRegister(r.pipe.inst0)
    ensures var ctl := Pcu.ControlOf(r, e, pc);
      && (ctl.jump.Some? ==> Pcu.AtLoopEnd(r.loop, pc) || ctl.irqAck)
      && (ctl.irqAck ==> !r.pipe.inst0.Executes(e.predBit))
      && ctl.reqSlots == 2
  {
  }

  /** One cycle later the call links, past two packets that are no delay slots of anything; the branch
      changes nothing. */
  lemma OnlyTheCallLinks(r: Pcu.PcuRegs, e: Pcu.Env, pc: Addr, next: Addr)
    requires Isa.ThroughRegister(r.pipe.inst1) && r.pipe.executes1 && r.pipe.slots == 2 && !e.write.WriteRetpc?
    ensures Pcu.NextRetpc(r, e, pc, next) == if r.pipe.inst1.itype == Pcu.CallAbs then next else r.retpc
  {
  }

  // ------------------------------------------------------ from the source text

  /** Branches and calls, with any number of delay slots. */
  predicate IsJump(m: Mnemonic) {
    MeaningOf(m).Some? && m != Bkrep
  }

  lemma JumpShared(m: Mnemonic, i: nat)
    requires IsJump(m) && Shared(m, i)
    ensures 67 <= i < 79
  {
  }

  /** Of the rows of a branch or call, the ones that do not take a symbol take a register. */
  lemma RegisterRowOf(i: nat, inst: Instruction)
    requires i < ROWS && RowOk(RowAt(i)) && Fits(RowAt(i), inst)
    requires IsJump(inst.mnemonic) && !NamesSymbol(inst)
    ensures RegisterIndex(i)
  {
    RowShared(i);
    JumpShared(inst.mnemonic, i);
    if i < 73 {
      BranchKinds(i);
    } else {
      CallKinds(i);
    }
  }

  lemma JumpType(m: Mnemonic)
    requires IsJump(m)
    ensures MeaningOf(m).value.0 == Pcu.JumpAbs || MeaningOf(m).value.0 == Pcu.CallAbs
  {
  }

  /** An encoded branch or call redirects the machine exactly when its operand is a symbol and the bit of
      its predicate register is not what the source negates; with a register for its operand it is one of
      the instructions that do nothing of the kind. */
  lemma EncodedJumpRedirects(
      inst: Instruction, notLast: bool, table: Table, c: Code, w: Wire, predBit: bool, retpc: Addr, retipc: Addr)
    requires Unambiguous(Insns()) && Search()(inst, notLast, Known(table)) == Emitted([c]) && Reads(w, c)
    requires IsJump(inst.mnemonic)
    ensures Pcu.ForPcu(w)
    ensures Isa.BranchOf(Pcu.Fields(w), predBit, retpc, retipc).Branch?
      <==> NamesSymbol(inst) && predBit != Negates(inst)
    ensures !NamesSymbol(inst) <==> Isa.ThroughRegister(Pcu.Fields(w))
  {
    var i := EmissionRow(inst, notLast, Known(table), c);
    if NamesSymbol(inst) {
      SearchMeaning(inst, notLast, table, c);
      assert w == WireOf(c);
      JumpType(inst.mnemonic);
      EmitFits(RowAt(i), inst, notLast, Known(table));
      ControlRowOf(i, inst);
      PredicateRead(i, inst, notLast, Known(table), c);
      NegRows(i);
    } else {
      EmitFits(RowAt(i), inst, notLast, Known(table));
      RegisterRowOf(i, inst);
      RegisterMeaning(i, inst, notLast, Known(table), c, w);
    }
  }

  lemma CarriedReads(s: Slot, c: Code)
    requires Carries(s, c)
    ensures Reads(s.inst, c)
  {
  }

  /** A branch or call of the source, executed by the core as the first instruction of its bundle for the
      control unit, redirects it if and only if its operand is a symbol and its predicate holds. */
  lemma RedirectsIffSymbol(
      items: seq<Item>, data: seq<Datum>, k: nat, j: nat, predBit: bool, retpc: Addr, retipc: Addr)
    requires Assembles(Search(), items, data)
    requires k < |items| && items[k].labelName.None? && items[k].align == 0 && j < |items[k].insts|
    requires IsJump(items[k].insts[j].mnemonic)
    requires FirstToPcu(CodesOf(Search(), items[k].insts, |items[k].insts|,
                                Known(GenOpcodes(Search(), items, data).value.table)), j)
    ensures var packets, i := Packets(Search(), items, data), PacketOf(PartsOf(Search(), items, data), k);
      var image := ImageOf(GenOpcodes(Search(), items, data).value.imem);
      && i < |packets| && PacketStart(packets, i) < WORD_SPAN
      && var inst := CoreRefinement.ProgramOf(image)(PacketStart(packets, i)).inst;
         && (Isa.BranchOf(inst, predBit, retpc, retipc).Branch?
             <==> NamesSymbol(items[k].insts[j]) && predBit != Negates(items[k].insts[j]))
         && (Isa.ThroughRegister(inst) <==> !NamesSymbol(items[k].insts[j]))
  {
    InsnsUnambiguous();
    var out, packets := GenOpcodes(Search(), items, data).value, Packets(Search(), items, data);
    var i := PacketOf(PartsOf(Search(), items, data), k);
    BundleInImage(Search(), items, data, k);
    ImageSpells(Search(), items, data);
    assert Spelled(ImageOf(out.imem), packets, i);
    BundleCodesInOrder(Search(), items, data, k);
    assert CodeOf(Search(), items[k].insts, j, Known(out.table), packets[i][j]);
    var b := Vliwfetch.BundleAt(ImageOf(out.imem), PacketStart(packets, i));
    DispatchIs(b, packets[i], j);
    CarriedReads(Slots(b)[j], packets[i][j]);
    EncodedJumpRedirects(items[k].insts[j], j + 1 < |items[k].insts|, out.table, packets[i][j],
                         Slots(b)[j].inst, predBit, retpc, retipc);
  }
}

/** What the control instructions of the source do to the core: branches, calls, loops, returns, interrupt
    control and halt, each from its mnemonic, operand and predicate. */
module SourceControl {
  import opened Words
  import opened Vliwdec
  import opened Encoding
  import opened UniqueEncoding
  import opened InsnTable
  import opened Disasm
  import opened InsnWords
  import opened AsmPasses
  import opened PassAgreement
  import opened AsmImage
  import opened JumpTargets
  import opened PredicateBits
  import opened Toolchain
  import opened LinkedPrograms
  import opened RegisterBranches
  import Vliwfetch
  import Pcu
  import Isa
  import CoreRefinement

  // -------------------------------------------- control without an operand

  /** The rows of the 16-bit space without operands that are for the control unit. */
  predicate PlainIndex(i: nat) {
    i == 0 || 79 <= i <= 86 || i == 88
  }

  /** Bits 13..12 and 7..2: delay slots, instruction type and unit. */
  const PLAIN_BITS: bv32 := 0x30FC

  /** What the mnemonics of these rows mean to the control unit. */
  function PlainMeaning(m: Mnemonic): Option<(Pcu.IType, nat)> {
    match m
    case Nop => Some((Pcu.Nil, 0))
    case Rets => Some((Pcu.Rets, 0))
    case Rets1ds => Some((Pcu.Rets, 1))
    case Rets2ds => Some((Pcu.Rets, 2))
    case Reti => Some((Pcu.Reti, 0))
    case Reti1ds => Some((Pcu.Reti, 1))
    case Reti2ds => Some((Pcu.Reti, 2))
    case Eint => Some((Pcu.Eint, 0))
    case Dint => Some((Pcu.Dint, 0))
    case Halt => Some((Pcu.Halt, 0))
    case _ => None
  }

  /** Their bits. */
  function PlainBits(i: nat): bv32 {
    match i
    case 79 => 0x30
    case 80 => 0x2030
    case 81 => 0x1030
    case 82 => 0x50
    case 83 => 0x2050
    case 84 => 0x1050
    case 85 => 0x60
    case 86 => 0x70
    case 88 => 0xF0
    case _ => 0
  }

  lemma PlainDefs(i: nat)
    requires PlainIndex(i)
    ensures RowAt(i).defs == [] && !RowAt(i).wide && RowAt(i).pattern == PlainBits(i)
  {
  }

  lemma PlainBitsKept(i: nat)
    requires PlainIndex(i)
    ensures And(PlainBits(i), PLAIN_BITS) == PlainBits(i) && And(PlainBits(i), UNIT_BITS) == 0
  {
  }

  lemma PlainMask()
    ensures And(PLAIN_BITS, 0xFFFF_0003) == 0 && And(0, PLAIN_BITS) == 0
  {
  }

  lemma PlainWord(i: nat, inst: Instruction, notLast: bool, syms: Symbols, c: Code, next: bv16)
    requires PlainIndex(i) && RowOk(RowAt(i)) && TryRow(RowAt(i), inst, notLast, syms) == Emit(c)
    ensures And(WordOf(c, next), PLAIN_BITS) == PlainBits(i)
    ensures c.Long? ==> And(WordOf(c, 0), UNIT_BITS) == 0
  {
    RowTargets(i);
    PlainDefs(i);
    PlainBitsKept(i);
    PlainMask();
    UnrollBits(RowAt(i));
    WordKeepsLow(RowAt(i), inst, notLast, syms, c, next, PLAIN_BITS);
    if c.Long? {
      CodeUnit(RowAt(i), inst, notLast, syms, c);
    }
  }

  /** The fields of a wire in the 16-bit space. */
  function PlainFields(w: Wire): (Pcu.IType, nat) {
    (Pcu.Fields(w).itype, Pcu.Fields(w).slots)
  }

  lemma ReturnFromWord(lo: bv16, next: bv16, hi: bv16)
    requires !(Wide(lo) && Pcu.EncBit(Wire(lo, hi)))
    ensures var bits := And(Disasm.Joined(lo, next), PLAIN_BITS);
      && (bits == 0x30 ==> PlainFields(Wire(lo, hi)) == (Pcu.Rets, 0))
      && (bits == 0x1030 ==> PlainFields(Wire(lo, hi)) == (Pcu.Rets, 1))
      && (bits == 0x2030 ==> PlainFields(Wire(lo, hi)) == (Pcu.Rets, 2))
  {
  }

  lemma ReturnIrqFromWord(lo: bv16, next: bv16, hi: bv16)
    requires !(Wide(lo) && Pcu.EncBit(Wire(lo, hi)))
    ensures var bits := And(Disasm.Joined(lo, next), PLAIN_BITS);
      && (bits == 0x50 ==> PlainFields(Wire(lo, hi)) == (Pcu.Reti, 0))
      && (bits == 0x1050 ==> PlainFields(Wire(lo, hi)) == (Pcu.Reti, 1))
      && (bits == 0x2050 ==> PlainFields(Wire(lo, hi)) == (Pcu.Reti, 2))
  {
  }

  lemma OtherFromWord(lo: bv16, next: bv16, hi: bv16)
    requires !(Wide(lo) && Pcu.EncBit(Wire(lo, hi)))
    ensures var bits := And(Disasm.Joined(lo, next), PLAIN_BITS);
      && (bits == 0 ==> PlainFields(Wire(lo, hi)) == (Pcu.Nil, 0))
      && (bits == 0x60 ==> PlainFields(Wire(lo, hi)) == (Pcu.Eint, 0))
      && (bits == 0x70 ==> PlainFields(Wire(lo, hi)) == (Pcu.Dint, 0))
      && (bits == 0xF0 ==> PlainFields(Wire(lo, hi)) == (Pcu.Halt, 0))
  {
  }

  lemma UnitFromPlain(lo: bv16, next: bv16, hi: bv16, bits: bv32)
    requires And(Disasm.Joined(lo, next), PLAIN_BITS) == bits && And(bits, UNIT_BITS) == 0
    ensures Pcu.ForPcu(Wire(lo, hi))
  {
  }

  /** The same by row. */
  function PlainAt(i: nat): (Pcu.IType, nat) {
    match i
    case 79 => (Pcu.Rets, 0)
    case 80 => (Pcu.Rets, 2)
    case 81 => (Pcu.Rets, 1)
    case 82 => (Pcu.Reti, 0)
    case 83 => (Pcu.Reti, 2)
    case 84 => (Pcu.Reti, 1)
    case 85 => (Pcu.Eint, 0)
    case 86 => (Pcu.Dint, 0)
    case 88 => (Pcu.Halt, 0)
    case _ => (Pcu.Nil, 0)
  }

  lemma RetsMnemonic(i: nat)
    requires 79 <= i <= 81
    ensures PlainMeaning(ReturnRow(i).mnemonic) == Some(PlainAt(i))
  {
    match i
    case 79 => assert ReturnRow(79).mnemonic == Rets;
    case 80 => assert ReturnRow(80).mnemonic == Rets2ds;
    case _ => assert ReturnRow(81).mnemonic == Rets1ds;
  }

  lemma RetiMnemonic(i: nat)
    requires 82 <= i <= 84
    ensures PlainMeaning(ReturnRow(i).mnemonic) == Some(PlainAt(i))
  {
    match i
    case 82 => assert ReturnRow(82).mnemonic == Reti;
    case 83 => assert ReturnRow(83).mnemonic == Reti2ds;
    case _ => assert ReturnRow(84).mnemonic == Reti1ds;
  }

  lemma EnableMnemonic(i: nat)
    requires 85 <= i <= 86
    ensures PlainMeaning(ReturnRow(i).mnemonic) == Some(PlainAt(i))
  {
    if i == 85 {
      assert ReturnRow(85).mnemonic == Eint;
    } else {
      assert ReturnRow(86).mnemonic == Dint;
    }
  }

  lemma HaltMnemonic()
    ensures PlainMeaning(ReturnRow(88).mnemonic) == Some(PlainAt(88))
  {
    assert ReturnRow(88).mnemonic == Halt;
  }

  lemma NopMnemonic()
    ensures PlainMeaning(LogicRow(0).mnemonic) == Some(PlainAt(0))
  {
    assert LogicRow(0).mnemonic == Nop;
  }

  lemma PlainMnemonic(i: nat)
    requires PlainIndex(i)
    ensures PlainMeaning(RowAt(i).mnemonic) == Some(PlainAt(i))
  {
    if i == 0 {
      NopMnemonic();
    } else if i <= 81 {
      RetsMnemonic(i);
    } else if i <= 84 {
      RetiMnemonic(i);
    } else if i <= 86 {
      EnableMnemonic(i);
    } else {
      HaltMnemonic();
    }
  }

  lemma PlainType(i: nat, lo: bv16, next: bv16, hi: bv16)
    requires PlainIndex(i) && And(Disasm.Joined(lo, next), PLAIN_BITS) == PlainBits(i)
    requires !(Wide(lo) && Pcu.EncBit(Wire(lo, hi)))
    ensures PlainFields(Wire(lo, hi)) == PlainAt(i)
  {
    if 79 <= i <= 81 {
      ReturnFromWord(lo, next, hi);
    } else if 82 <= i <= 84 {
      ReturnIrqFromWord(lo, next, hi);
    } else {
      OtherFromWord(lo, next, hi);
    }
  }

  /** A control instruction without an operand reaches the unit as what its mnemonic says, predicated
      or not, in the 16-bit space. */
  lemma PlainRead(i: nat, inst: Instruction, notLast: bool, syms: Symbols, c: Code, w: Wire)
    requires PlainIndex(i) && RowOk(RowAt(i)) && TryRow(RowAt(i), inst, notLast, syms) == Emit(c) && Reads(w, c)
    ensures var f := Pcu.Fields(w);
      && Pcu.ForPcu(w) && !f.Enc32() && Some((f.itype, f.slots)) == PlainMeaning(inst.mnemonic)
  {
    EmittedBits(RowAt(i), inst, notLast, syms);
    var next := if c.Long? then c.hi else 0;
    PlainWord(i, inst, notLast, syms, c, next);
    if c.Long? {
      NotEncoded32(c.lo, c.hi);
    }
    PlainBitsKept(i);
    UnitFromPlain(c.lo, next, w.hi, PlainBits(i));
    PlainType(i, c.lo, next, w.hi);
    PlainMnemonic(i);
  }

  // ------------------------------------------------- what the source promises

  predicate Controls(m: Mnemonic) {
    MeaningOf(m).Some? || PlainMeaning(m).Some?
  }

  /** The delay slots a mnemonic asks for. */
  function SlotsAsked(m: Mnemonic): nat {
    match m
    case Bra1ds => 1
    case Call1ds => 1
    case Rets1ds => 1
    case Reti1ds => 1
    case Bra2ds => 2
    case Call2ds => 2
    case Rets2ds => 2
    case Reti2ds => 2
    case _ => 0
  }

  /** Whether the instruction executes, given the bit of its predicate register: if that is what the source
      asks for; without a predicate always, which for a 32-bit instruction takes the first register's
      bit, a constant one. */
  predicate Runs(inst: Instruction, predBit: bool) {
    if inst.pred.Some? then predBit != inst.predNeg else NamesSymbol(inst) ==> predBit
  }

  /** Where the instruction sends the machine. */
  function SourceBranch(inst: Instruction, target: Addr, predBit: bool, retpc: Addr, retipc: Addr): Isa.Branch {
    var k := SlotsAsked(inst.mnemonic);
    if !Runs(inst, predBit) then Isa.NoBranch
    else
      match inst.mnemonic
      case Bra => if NamesSymbol(inst) then Isa.Branch(target, k, false) else Isa.NoBranch
      case Bra1ds => if NamesSymbol(inst) then Isa.Branch(target, k, false) else Isa.NoBranch
      case Bra2ds => if NamesSymbol(inst) then Isa.Branch(target, k, false) else Isa.NoBranch
      case Call => if NamesSymbol(inst) then Isa.Branch(target, k, true) else Isa.NoBranch
      case Call1ds => if NamesSymbol(inst) then Isa.Branch(target, k, true) else Isa.NoBranch
      case Call2ds => if NamesSymbol(inst) then Isa.Branch(target, k, true) else Isa.NoBranch
      case Rets => Isa.Branch(retpc, k, false)
      case Rets1ds => Isa.Branch(retpc, k, false)
      case Rets2ds => Isa.Branch(retpc, k, false)
      case Reti => Isa.Branch(retipc, k, false)
      case Reti1ds => Isa.Branch(retipc, k, false)
      case Reti2ds => Isa.Branch(retipc, k, false)
      case _ => Isa.NoBranch
  }

  /** The interrupt enable behind the instruction. The unit does not look at its predicate. */
  function EnableAfter(m: Mnemonic, enabled: bool): bool {
    match m
    case Eint => true
    case Reti => true
    case Reti1ds => true
    case Reti2ds => true
    case Dint => false
    case _ => enabled
  }

  /** The control unit's instruction `f` does what `inst` says, with `target` for its symbol. */
  ghost predicate Obeys(f: Pcu.Inst, inst: Instruction, target: Addr) {
    && (forall bit, retpc, retipc ::
          Isa.BranchOf(f, bit, retpc, retipc) == SourceBranch(inst, target, bit, retpc, retipc))
    && (f.IsBkrep() <==> inst.mnemonic == Bkrep) && (f.IsBkrep() ==> f.imm == target)
    && (forall s: Isa.Machine, bit ::
          s.last == f ==> Isa.Resolve(s, bit).irqEnable == EnableAfter(inst.mnemonic, s.irqEnable))
    && (forall r: Pcu.PcuRegs, e, pc :: r.pipe.inst0 == f && !Pcu.AtLoopEnd(r.loop, pc) ==>
          (Pcu.ControlOf(r, e, pc).halt <==> inst.mnemonic == Halt && Runs(inst, e.predBit)))
  }

  // ------------------------------------------------------------ the proofs

  /** What is read of an instruction with a symbol. */
  lemma SymbolObeys(f: Pcu.Inst, inst: Instruction, target: Addr)
    requires NamesSymbol(inst) && f.Enc32() && f.imm == target && MeaningOf(inst.mnemonic) == Some((f.itype, f.slots))
    requires forall bit :: f.Executes(bit) <==> Runs(inst, bit)
    ensures Obeys(f, inst, target)
  {
    MeaningSlots(inst.mnemonic);
  }

  lemma MeaningSlots(m: Mnemonic)
    ensures MeaningOf(m).Some? ==> MeaningOf(m).value.1 == SlotsAsked(m)
    ensures PlainMeaning(m).Some? ==> PlainMeaning(m).value.1 == SlotsAsked(m)
  {
  }

  lemma PlainObeys(f: Pcu.Inst, inst: Instruction, target: Addr)
    requires !NamesSymbol(inst) && !f.Enc32() && PlainMeaning(inst.mnemonic) == Some((f.itype, f.slots))
    requires forall bit :: f.Executes(bit) <==> Runs(inst, bit)
    ensures Obeys(f, inst, target)
  {
    MeaningSlots(inst.mnemonic);
  }

  lemma RegisterObeys(f: Pcu.Inst, inst: Instruction, target: Addr)
    requires !NamesSymbol(inst) && IsJump(inst.mnemonic) && Isa.ThroughRegister(f)
    ensures Obeys(f, inst, target)
  {
  }

  // ------------------------------------------------------ from the source text

  lemma PlainShared(m: Mnemonic, i: nat)
    requires PlainMeaning(m).Some? && Shared(m, i)
    ensures PlainIndex(i)
  {
  }

  /** A mnemonic without an operand has the one row. */
  lemma PlainRowOf(i: nat, inst: Instruction)
    requires i < ROWS && RowOk(RowAt(i)) && Fits(RowAt(i), inst) && PlainMeaning(inst.mnemonic).Some?
    ensures PlainIndex(i) && inst.ops == []
  {
    RowShared(i);
    PlainShared(inst.mnemonic, i);
    PlainDefs(i);
  }

  lemma BkrepDefs()
    ensures RowAt(87).defs == [Sym(8, 16)]
  {
  }

  /** A loop takes nothing but a symbol. */
  lemma BkrepNames(i: nat, inst: Instruction)
    requires i < ROWS && RowOk(RowAt(i)) && Fits(RowAt(i), inst) && inst.mnemonic == Bkrep
    ensures NamesSymbol(inst)
  {
    RowShared(i);
    assert i == 87;
    BkrepDefs();
    assert RowAt(i).defs[0].kind == inst.ops[0].kind;
  }

  /** The symbol's address, for an instruction that has one. */
  predicate Aims(inst: Instruction, table: Table, target: Addr) {
    NamesSymbol(inst) ==> Lookup(table, inst.ops[0].name) == Some(target)
  }

  lemma SymbolControl(i: nat, inst: Instruction, notLast: bool, table: Table, c: Code, target: Addr)
    requires FromRow(i, inst, notLast, Known(table), c) && Fits(RowAt(i), inst)
    requires MeaningOf(inst.mnemonic).Some? && NamesSymbol(inst) && Aims(inst, table, target)
    ensures c.Long? && Pcu.ForPcu(WireOf(c)) && Obeys(Pcu.Fields(WireOf(c)), inst, target)
  {
    ControlRowOf(i, inst);
    ControlMeaning(i, inst, notLast, table, c);
    PredicateRead(i, inst, notLast, Known(table), c);
    NegRows(i);
    SymbolObeys(Pcu.Fields(WireOf(c)), inst, target);
  }

  lemma PlainControl(i: nat, inst: Instruction, notLast: bool, table: Table, c: Code, w: Wire, target: Addr)
    requires FromRow(i, inst, notLast, Known(table), c) && Fits(RowAt(i), inst)
    requires PlainMeaning(inst.mnemonic).Some? && Reads(w, c)
    ensures Pcu.ForPcu(w) && Obeys(Pcu.Fields(w), inst, target)
  {
    PlainRowOf(i, inst);
    PlainRead(i, inst, notLast, Known(table), c, w);
    PredicateRead(i, inst, notLast, Known(table), c);
    NegRows(i);
    EmittedBits(RowAt(i), inst, notLast, Known(table));
    PlainDefs(i);
    assert w == Wire(c.lo, w.hi);
    PlainObeys(Pcu.Fields(w), inst, target);
  }

  lemma RegisterControl(i: nat, inst: Instruction, notLast: bool, table: Table, c: Code, w: Wire, target: Addr)
    requires FromRow(i, inst, notLast, Known(table), c) && Fits(RowAt(i), inst)
    requires IsJump(inst.mnemonic) && !NamesSymbol(inst) && Reads(w, c)
    ensures Pcu.ForPcu(w) && Obeys(Pcu.Fields(w), inst, target)
  {
    RegisterRowOf(i, inst);
    RegisterMeaning(i, inst, notLast, Known(table), c, w);
    RegisterObeys(Pcu.Fields(w), inst, target);
  }

  /** Every control instruction the assembler encodes is for the control unit and does there what the
      source says: where it goes and when, what becomes of the loop and the interrupt enable, and
      whether the core halts. */
  lemma EncodedControl(inst: Instruction, notLast: bool, table: Table, c: Code, w: Wire, target: Addr)
    requires Unambiguous(Insns()) && Search()(inst, notLast, Known(table)) == Emitted([c]) && Reads(w, c)
    requires Controls(inst.mnemonic) && Aims(inst, table, target)
    ensures Pcu.ForPcu(w) && Obeys(Pcu.Fields(w), inst, target)
  {
    var i := EmissionRow(inst, notLast, Known(table), c);
    EmitFits(RowAt(i), inst, notLast, Known(table));
    if PlainMeaning(inst.mnemonic).Some? {
      PlainControl(i, inst, notLast, table, c, w, target);
    } else if NamesSymbol(inst) {
      SymbolControl(i, inst, notLast, table, c, target);
      assert w == WireOf(c);
    } else {
      if inst.mnemonic == Bkrep {
        BkrepNames(i, inst);
      }
      RegisterControl(i, inst, notLast, table, c, w, target);
    }
  }

  /** The label that an instruction with a symbol names. */
  ghost predicate NamesLabel(items: seq<Item>, inst: Instruction, l: nat) {
    NamesSymbol(inst) ==> l < |items| && items[l].labelName == Some(inst.ops[0].name)
  }

  /** From source text to what the core does: a control instruction that is the first of its bundle for
      the control unit is obeyed there, at the bundle's address, with the address of the packet after its
      label for a target. */
  lemma ControlObeyed(items: seq<Item>, data: seq<Datum>, k: nat, j: nat, l: nat)
    requires Assembles(Search(), items, data) && ForwardProgram(Search(), items, data)
    requires k < |items| && items[k].labelName.None? && items[k].align == 0 && j < |items[k].insts|
    requires Controls(items[k].insts[j].mnemonic) && NamesLabel(items, items[k].insts[j], l)
    requires FirstToPcu(CodesOf(Search(), items[k].insts, |items[k].insts|,
                                Known(GenOpcodes(Search(), items, data).value.table)), j)
    ensures var packets, parts := Packets(Search(), items, data), PartsOf(Search(), items, data);
      var image, inst := ImageOf(GenOpcodes(Search(), items, data).value.imem), items[k].insts[j];
      var i, t := PacketOf(parts, k), if NamesSymbol(inst) then PacketOf(parts, l) else 0;
      && i < |packets| && t <= |packets| && PacketStart(packets, i) < WORD_SPAN && PacketStart(packets, t) < WORD_SPAN
      && Obeys(CoreRefinement.ProgramOf(image)(PacketStart(packets, i)).inst, inst, PacketStart(packets, t))
  {
    InsnsUnambiguous();
    var out, packets := GenOpcodes(Search(), items, data).value, Packets(Search(), items, data);
    var i := PacketOf(PartsOf(Search(), items, data), k);
    BundleInImage(Search(), items, data, k);
    ImageSpells(Search(), items, data);
    assert Spelled(ImageOf(out.imem), packets, i);
    BundleCodesInOrder(Search(), items, data, k);
    assert CodeOf(Search(), items[k].insts, j, Known(out.table), packets[i][j]);
    var b := Vliwfetch.BundleAt(ImageOf(out.imem), PacketStart(packets, i));
    DispatchIs(b, packets[i], j);
    CarriedReads(Slots(b)[j], packets[i][j]);
    var t := if NamesSymbol(items[k].insts[j]) then PacketOf(PartsOf(Search(), items, data), l) else 0;
    if NamesSymbol(items[k].insts[j]) {
      LabelIsStart(Search(), items, data, l);
    }
    EncodedControl(items[k].insts[j], j + 1 < |items[k].insts|, out.table, packets[i][j],
                   Slots(b)[j].inst, PacketStart(packets, t));
  }
}

/** Linked programs: an assembled branch, call or loop takes the core to its label. */
module LinkedPrograms {
  import opened Words
  import opened Vliwdec
  import opened Encoding
  import opened UniqueEncoding
  import opened InsnTable
  import opened Alignment
  import opened AsmPasses
  import opened PassAgreement
  import opened AsmImage
  import opened Assembler
  import opened JumpTargets
  import Vliwfetch
  import Pcu
  import Isa
  import Core
  import CoreRefinement
  import opened Toolchain
  import ProgramRules

  // ------------------------------------------------- which row it came from

  /** The encoding is the answer of row `i` of the table. */
  ghost predicate FromRow(i: nat, inst: Instruction, notLast: bool, syms: Symbols, c: Code) {
    i < ROWS && RowOk(RowAt(i)) && TryRow(RowAt(i), inst, notLast, syms) == Emit(c)
  }

  lemma EmissionRow(inst: Instruction, notLast: bool, syms: Symbols, c: Code) returns (i: nat)
    requires Unambiguous(Insns()) && Encode(Insns(), inst, notLast, syms) == Emitted([c])
    ensures FromRow(i, inst, notLast, syms, c)
  {
    var answers := Answers(Insns(), inst, notLast, syms);
    AnswersOnce(Insns(), inst, notLast, syms);
    GatherOnce(answers, |Insns()|);
    i :| OnlyAnswer(answers, |Insns()|, i, c);
    assert answers[i] == TryRow(Insns()[i], inst, notLast, syms);
    RowShared(i);
  }

  /** One instruction with a symbol as its one operand. */
  predicate NamesSymbol(inst: Instruction) {
    |inst.ops| == 1 && inst.ops[0].kind == SymbolRef
  }

  /** Of the rows of a branch, call or loop, the ones that take a symbol. */
  lemma ControlRowOf(i: nat, inst: Instruction)
    requires i < ROWS && RowOk(RowAt(i)) && Fits(RowAt(i), inst)
    requires NamesSymbol(inst) && MeaningOf(inst.mnemonic).Some?
    ensures ControlIndex(i)
  {
    RowShared(i);
    ControlShared(inst.mnemonic, i);
    if 67 <= i < 73 {
      BranchKinds(i);
    } else if 73 <= i < 79 {
      CallKinds(i);
    }
  }

  lemma ControlShared(m: Mnemonic, i: nat)
    requires MeaningOf(m).Some? && Shared(m, i)
    ensures 67 <= i < 79 || i == 87
  {
  }

  lemma BranchKinds(i: nat)
    requires 67 <= i < 73
    ensures |BranchRow(i).defs| == 1 && (BranchRow(i).defs[0].kind == SymbolRef <==> i < 70)
  {
  }

  lemma CallKinds(i: nat)
    requires 73 <= i < 79
    ensures |CallRow(i).defs| == 1 && (CallRow(i).defs[0].kind == SymbolRef <==> i < 76)
  {
  }

  // ------------------------------------------- from the bundle to the unit

  /** The assembler's search over its own table. */
  ghost function Search(): EncodeFn {
    Using(Insns())
  }

  /** Instruction `j` of a bundle is the one that has code `j`. */
  ghost predicate CodeOf(enc: EncodeFn, insts: seq<Instruction>, j: nat, syms: Symbols, c: Code)
    requires j < |insts|
  {
    enc(insts[j], j + 1 < |insts|, syms) == Emitted([c])
  }

  /** The first `n` codes of a bundle are those of its instructions, in order. */
  ghost predicate InOrder(enc: EncodeFn, insts: seq<Instruction>, n: nat, syms: Symbols, codes: seq<Code>)
    requires n <= |insts|
  {
    |codes| == n && forall j: nat :: j < n ==> CodeOf(enc, insts, j, syms, codes[j])
  }

  lemma OneMoreInOrder(enc: EncodeFn, insts: seq<Instruction>, n: nat, syms: Symbols, codes: seq<Code>, c: Code)
    requires n < |insts| && InOrder(enc, insts, n, syms, codes) && CodeOf(enc, insts, n, syms, c)
    ensures InOrder(enc, insts, n + 1, syms, codes + [c])
  {
  }

  lemma {:induction false} CodesInOrder(enc: EncodeFn, insts: seq<Instruction>, n: nat, syms: Symbols, m: Mem)
    requires Sound(enc) && n <= |insts| && AssembleBundle(enc, insts, n, syms, m).Good?
    ensures InOrder(enc, insts, n, syms, CodesOf(enc, insts, n, syms))
  {
    if n > 0 {
      CodesInOrder(enc, insts, n - 1, syms, m);
      var p := AssembleBundle(enc, insts, n - 1, syms, m).value;
      var c := InstCode(enc, insts[n - 1], n < |insts|, syms, p);
      OneMoreInOrder(enc, insts, n - 1, syms, CodesOf(enc, insts, n - 1, syms), c);
    }
  }

  predicate ToPcu(c: Code) {
    Pcu.ForPcu(Wire(c.lo, 0))
  }

  /** What the control unit gets from a packet, if it is in the 32-bit encoding space, is one of the
      packet's instructions. */
  lemma DispatchFinds(b: Bundle, codes: seq<Code>) returns (j: nat)
    requires Decodes(b, codes) && IsPacket(codes) && Pcu.Dispatch(b, true).Enc32()
    ensures j < |codes| && IsControl(codes[j]) && Pcu.Fields(WireOf(codes[j])) == Pcu.Dispatch(b, true)
  {
    j := if Pcu.ForPcu(b.s0.inst) then 0
         else if b.s1.valid && Pcu.ForPcu(b.s1.inst) then 1
         else if b.s2.valid && Pcu.ForPcu(b.s2.inst) then 2
         else 3;
    assert Carries(Slots(b)[0], codes[0]);
    assert Slots(b)[j].valid;
    assert j < |codes| && Carries(Slots(b)[j], codes[j]);
    SlotControl(Slots(b)[j], codes[j]);
  }

  lemma SlotControl(s: Slot, c: Code)
    requires Carries(s, c) && c.SizeBitOk() && Pcu.ForPcu(s.inst) && Pcu.Fields(s.inst).Enc32()
    ensures IsControl(c) && WireOf(c) == s.inst
  {
  }

  lemma SlotFields(s: Slot, c: Code)
    requires Carries(s, c)
    ensures Pcu.ForPcu(s.inst) <==> ToPcu(c)
    ensures c.Long? ==> WireOf(c) == s.inst
  {
  }

  /** Instruction `j` is the first one of the packet that is for the control unit. */
  ghost predicate FirstToPcu(codes: seq<Code>, j: nat) {
    j < |codes| && ToPcu(codes[j]) && forall k: nat :: k < j ==> !ToPcu(codes[k])
  }

  /** The control unit gets the first instruction of a packet that is for it. */
  lemma DispatchIs(b: Bundle, codes: seq<Code>, j: nat)
    requires Decodes(b, codes) && FirstToPcu(codes, j)
    ensures Carries(Slots(b)[j], codes[j]) && Pcu.Dispatch(b, true) == Pcu.Fields(Slots(b)[j].inst)
    ensures codes[j].Long? ==> WireOf(codes[j]) == Slots(b)[j].inst
  {
    forall k: nat | k <= j
      ensures Slots(b)[k].valid && (Pcu.ForPcu(Slots(b)[k].inst) <==> ToPcu(codes[k]))
    {
      SlotFields(Slots(b)[k], codes[k]);
    }
    SlotFields(Slots(b)[j], codes[j]);
    assert j == 0 || !ToPcu(codes[0]);
    assert j <= 1 || !ToPcu(codes[1]);
    assert j <= 2 || !ToPcu(codes[2]);
    assert Slots(b)[0].valid;
    assert j >= 1 ==> Slots(b)[1].valid;
    assert j >= 2 ==> Slots(b)[2].valid;
  }

  /** A 16-bit instruction other than a return that is the first one for the control unit hides every jump
      and loop of its packet. */
  lemma ShortHidesJump(b: Bundle, codes: seq<Code>, k: nat, predBit: bool, retpc: Addr, retipc: Addr)
    requires Decodes(b, codes) && FirstToPcu(codes, k) && codes[k].Short? && codes[k].SizeBitOk()
    requires Pcu.TypeOf(Wire(codes[k].lo, 0)) != Pcu.Rets && Pcu.TypeOf(Wire(codes[k].lo, 0)) != Pcu.Reti
    ensures Isa.BranchOf(Pcu.Dispatch(b, true), predBit, retpc, retipc).NoBranch?
    ensures !Pcu.Dispatch(b, true).IsBkrep()
  {
    DispatchIs(b, codes, k);
  }

  /** A nop is for the control unit as well: behind one, no jump of the same packet is seen. */
  lemma NopHidesJump(b: Bundle, codes: seq<Code>, k: nat, predBit: bool, retpc: Addr, retipc: Addr)
    requires Decodes(b, codes) && FirstToPcu(codes, k) && (codes[k] == Short(1) || codes[k] == Short(0))
    ensures Isa.BranchOf(Pcu.Dispatch(b, true), predBit, retpc, retipc).NoBranch?
    ensures !Pcu.Dispatch(b, true).IsBkrep()
  {
    ShortHidesJump(b, codes, k, predBit, retpc, retipc);
  }

  // ------------------------------------------------ where packets come from

  lemma {:induction false} JoinedMember(parts: seq<seq<seq<Code>>>, n: nat, i: nat) returns (k: nat)
    requires n <= |parts| && i < |Joined(parts, n)|
    ensures k < n && Joined(parts, n)[i] in parts[k]
  {
    if i < |Joined(parts, n - 1)| {
      k := JoinedMember(parts, n - 1, i);
    } else {
      k := n - 1;
      assert Joined(parts, n)[i] == parts[k][i - |Joined(parts, n - 1)|];
    }
  }

  predicate AllShort(codes: seq<Code>) {
    forall c <- codes :: c.Short?
  }

  lemma {:induction false} LastGroupShort(k: nat)
    requires 1 <= k <= 4
    ensures AllShort(LastGroup(k))
  {
    if k > 1 {
      LastGroupShort(k - 1);
    }
  }

  lemma {:induction false} PaddingShort(k: nat, codes: seq<Code>)
    requires codes in Padding(k)
    ensures AllShort(codes)
  {
    if 0 < k <= 4 {
      LastGroupShort(k);
    } else if k > 4 && codes != FULL_GROUP {
      PaddingShort(k - 4, codes);
    }
  }

  /** A packet with a 32-bit instruction in it comes from a bundle. */
  lemma PacketSource(enc: EncodeFn, items: seq<Item>, data: seq<Datum>, i: nat) returns (k: nat)
    requires Assembles(enc, items, data) && i < |Packets(enc, items, data)|
    requires !AllShort(Packets(enc, items, data)[i])
    ensures k < |items| && items[k].labelName.None? && items[k].align == 0
    ensures var table := GenOpcodes(enc, items, data).value.table;
      Packets(enc, items, data)[i] == CodesOf(enc, items[k].insts, |items[k].insts|, Known(table))
  {
    var parts, packets := PartsOf(enc, items, data), Packets(enc, items, data);
    var table, m := GenOpcodes(enc, items, data).value.table, SecondStart(enc, items, data);
    k := JoinedMember(parts, |items|, i);
    assert parts[k] == ItemPackets(enc, items[k], AddressOf(enc, items, k, table, m), table);
    var it := items[k];
    if it.labelName.None? && it.align != 0 {
      PaddingShort(NopsToAdd(AddressOf(enc, items, k, table, m), it.align), packets[i]);
    }
  }

  lemma BundleInOrder(enc: EncodeFn, items: seq<Item>, k: nat, table: Table, m: Mem)
    requires Sound(enc) && k < |items| && items[k].labelName.None? && items[k].align == 0
    requires SecondPass(enc, items, |items|, table, m).Good?
    ensures var insts, syms := items[k].insts, Known(table);
      InOrder(enc, insts, |insts|, syms, CodesOf(enc, insts, |insts|, syms))
  {
    SecondPassPrefix(enc, items, k + 1, |items|, table, m);
    var t := SecondPass(enc, items, k, table, m).value;
    CodesInOrder(enc, items[k].insts, |items[k].insts|, Known(table), t);
  }

  /** The codes of a bundle of the program, one for each instruction. */
  lemma BundleCodesInOrder(enc: EncodeFn, items: seq<Item>, data: seq<Datum>, k: nat)
    requires Assembles(enc, items, data) && k < |items| && items[k].labelName.None? && items[k].align == 0
    ensures var insts, syms := items[k].insts, Known(GenOpcodes(enc, items, data).value.table);
      InOrder(enc, insts, |insts|, syms, CodesOf(enc, insts, |insts|, syms))
  {
    BundleInOrder(enc, items, k, GenOpcodes(enc, items, data).value.table, SecondStart(enc, items, data));
  }

  // -------------------------------------------------------- labels are starts

  /** A label of the code list. */
  ghost predicate CodeLabel(items: seq<Item>, name: string) {
    exists k: nat :: k < |items| && items[k].labelName == Some(name)
  }

  /** Branches, calls and loops name labels of the code list, not of the data list. */
  ghost predicate BranchesToLabels(items: seq<Item>) {
    forall k: nat, j: nat :: k < |items| && j < |items[k].insts| && NamesSymbol(items[k].insts[j]) ==>
      CodeLabel(items, items[k].insts[j].ops[0].name)
  }

  /** What a label of the code list means: the place of the packet that follows it. */
  lemma LabelIsStart(enc: EncodeFn, items: seq<Item>, data: seq<Datum>, k: nat)
    requires Assembles(enc, items, data) && ForwardProgram(enc, items, data)
    requires k < |items| && items[k].labelName.Some?
    ensures var table, packets, i := GenOpcodes(enc, items, data).value.table, Packets(enc, items, data),
                                     PacketOf(PartsOf(enc, items, data), k);
      && i <= |packets| && PacketStart(packets, i) < WORD_SPAN
      && Lookup(table, items[k].labelName.value) == Some(PacketStart(packets, i))
  {
    var table, m := GenOpcodes(enc, items, data).value.table, SecondStart(enc, items, data);
    SymbolsMeanAddresses(enc, items, data);
    ListedAt(enc, items, k, table, m, PartsOf(enc, items, data));
  }

  // --------------------------------------------------------- linked programs

  lemma SearchTarget(inst: Instruction, notLast: bool, table: Table, c: Code)
    requires Unambiguous(Insns()) && Search()(inst, notLast, Known(table)) == Emitted([c]) && IsControl(c)
    ensures NamesSymbol(inst) && Lookup(table, inst.ops[0].name) == Some(Pcu.Fields(WireOf(c)).imm)
  {
    var i := EmissionRow(inst, notLast, Known(table), c);
    TargetIsSymbol(i, inst, notLast, table, c);
  }

  lemma SearchMeaning(inst: Instruction, notLast: bool, table: Table, c: Code)
    requires Unambiguous(Insns()) && Search()(inst, notLast, Known(table)) == Emitted([c])
    requires NamesSymbol(inst) && MeaningOf(inst.mnemonic).Some?
    ensures IsControl(c)
    ensures var f := Pcu.Fields(WireOf(c));
      && Some((f.itype, f.slots)) == MeaningOf(inst.mnemonic)
      && Lookup(table, inst.ops[0].name) == Some(f.imm)
  {
    var i := EmissionRow(inst, notLast, Known(table), c);
    EmitFits(RowAt(i), inst, notLast, Known(table));
    ControlRowOf(i, inst);
    ControlMeaning(i, inst, notLast, table, c);
  }

  /** Instruction `j` of the packet at place `i` is one of the source. */
  lemma InstructionSource(enc: EncodeFn, items: seq<Item>, data: seq<Datum>, i: nat, j: nat) returns (k: nat)
    requires Assembles(enc, items, data) && i < |Packets(enc, items, data)|
    requires j < |Packets(enc, items, data)[i]| && Packets(enc, items, data)[i][j].Long?
    ensures k < |items| && j < |items[k].insts|
    ensures var table := GenOpcodes(enc, items, data).value.table;
      CodeOf(enc, items[k].insts, j, Known(table), Packets(enc, items, data)[i][j])
  {
    var codes := Packets(enc, items, data)[i];
    assert codes[j] in codes && !AllShort(codes);
    k := PacketSource(enc, items, data, i);
    BundleCodesInOrder(enc, items, data, k);
  }

  /** An encoded jump, call or loop of the image targets a label's address. */
  lemma CodeTarget(items: seq<Item>, data: seq<Datum>, i: nat, j: nat)
    requires Assembles(Search(), items, data) && Unambiguous(Insns())
    requires ForwardProgram(Search(), items, data) && BranchesToLabels(items)
    requires var packets := Packets(Search(), items, data);
      i < |packets| && j < |packets[i]| && IsControl(packets[i][j])
    ensures var packets := Packets(Search(), items, data);
      OnStart(packets, Pcu.Fields(WireOf(packets[i][j])).imm)
  {
    var table, packets := GenOpcodes(Search(), items, data).value.table, Packets(Search(), items, data);
    var k := InstructionSource(Search(), items, data, i, j);
    SearchTarget(items[k].insts[j], j + 1 < |items[k].insts|, table, packets[i][j]);
    var l: nat :| l < |items| && items[l].labelName == Some(items[k].insts[j].ops[0].name);
    LabelIsStart(Search(), items, data, l);
  }

  /** What the control unit is asked for at place `i` goes to a label's address. */
  lemma TargetIsLabel(items: seq<Item>, data: seq<Datum>, image: Vliwfetch.Image, i: nat)
    requires Assembles(Search(), items, data) && Unambiguous(Insns())
    requires ForwardProgram(Search(), items, data) && BranchesToLabels(items)
    requires i < |Packets(Search(), items, data)| && Spelled(image, Packets(Search(), items, data), i)
    ensures var packets := Packets(Search(), items, data);
      var inst := CoreRefinement.ProgramOf(image)(PacketStart(packets, i)).inst;
      inst.Enc32() ==> OnStart(packets, inst.imm)
  {
    var packets := Packets(Search(), items, data);
    var b := Vliwfetch.BundleAt(image, PacketStart(packets, i));
    if Pcu.Dispatch(b, true).Enc32() {
      PacketIs(Search(), items, data, i);
      var j := DispatchFinds(b, packets[i]);
      CodeTarget(items, data, i, j);
    }
  }

  lemma PacketIs(enc: EncodeFn, items: seq<Item>, data: seq<Datum>, i: nat)
    requires Assembles(enc, items, data) && i < |Packets(enc, items, data)|
    ensures IsPacket(Packets(enc, items, data)[i])
  {
    var table, m := GenOpcodes(enc, items, data).value.table, SecondStart(enc, items, data);
    PassWrites(enc, items, |items|, table, m, PartsOf(enc, items, data));
  }

  /** In a linked program every jump and call goes to the start of a packet, or to the image's end. */
  lemma LinkedProgramsAim(items: seq<Item>, data: seq<Datum>)
    requires Assembles(Search(), items, data) && ForwardProgram(Search(), items, data) && BranchesToLabels(items)
    ensures var image := ImageOf(GenOpcodes(Search(), items, data).value.imem);
      JumpsAim(CoreRefinement.ProgramOf(image), Packets(Search(), items, data))
  {
    InsnsUnambiguous();
    ImageSpells(Search(), items, data);
    var image, packets := ImageOf(GenOpcodes(Search(), items, data).value.imem), Packets(Search(), items, data);
    var g := CoreRefinement.ProgramOf(image);
    forall i: nat | i < |packets| && PacketStart(packets, i) < WORD_SPAN
      ensures var inst := g(PacketStart(packets, i)).inst; JumpsToImmediate(inst) ==> OnStart(packets, inst.imm)
    {
      TargetIsLabel(items, data, image, i);
    }
  }

  /** A branch, call or loop of the source, seen from the core: at its bundle's address the control
      unit gets the type and delay slots its mnemonic stands for, and as its target the address of the
      packet after the label. It must be the first instruction of its bundle for that unit. */
  lemma BranchMeaning(items: seq<Item>, data: seq<Datum>, k: nat, j: nat, l: nat)
    requires Assembles(Search(), items, data) && ForwardProgram(Search(), items, data)
    requires k < |items| && items[k].labelName.None? && items[k].align == 0 && j < |items[k].insts|
    requires NamesSymbol(items[k].insts[j]) && MeaningOf(items[k].insts[j].mnemonic).Some?
    requires FirstToPcu(CodesOf(Search(), items[k].insts, |items[k].insts|,
                                Known(GenOpcodes(Search(), items, data).value.table)), j)
    requires l < |items| && items[l].labelName == Some(items[k].insts[j].ops[0].name)
    ensures var packets, parts := Packets(Search(), items, data), PartsOf(Search(), items, data);
      var image, i, t := ImageOf(GenOpcodes(Search(), items, data).value.imem), PacketOf(parts, k), PacketOf(parts, l);
      && i < |packets| && t <= |packets| && PacketStart(packets, i) < WORD_SPAN
      && var inst := CoreRefinement.ProgramOf(image)(PacketStart(packets, i)).inst;
         && inst.Enc32() && inst.imm == PacketStart(packets, t)
         && MeaningOf(items[k].insts[j].mnemonic) == Some((inst.itype, inst.slots))
  {
    InsnsUnambiguous();
    var out, packets := GenOpcodes(Search(), items, data).value, Packets(Search(), items, data);
    var i := PacketOf(PartsOf(Search(), items, data), k);
    BundleInImage(Search(), items, data, k);
    ImageSpells(Search(), items, data);
    assert Spelled(ImageOf(out.imem), packets, i);
    BundleCodesInOrder(Search(), items, data, k);
    assert CodeOf(Search(), items[k].insts, j, Known(out.table), packets[i][j]);
    SearchMeaning(items[k].insts[j], j + 1 < |items[k].insts|, out.table, packets[i][j]);
    DispatchIs(Vliwfetch.BundleAt(ImageOf(out.imem), PacketStart(packets, i)), packets[i], j);
    LabelIsStart(Search(), items, data, l);
  }

  // ----------------------------------------------------- no rule left to the run

  /** The programming rules, packet by packet, with `ends` for the end labels of the loops. */
  ghost predicate RuledImage(g: Isa.Program, packets: seq<seq<Code>>, ends: set<Addr>) {
    forall i: nat :: i < |packets| ==> RuledAt(g, packets, ends, i)
  }

  ghost predicate RuledAt(g: Isa.Program, packets: seq<seq<Code>>, ends: set<Addr>, i: nat)
    requires i < |packets|
  {
    PacketStart(packets, i) < WORD_SPAN ==> ProgramRules.Ruled(g, ends, PacketStart(packets, i))
  }

  lemma StepRuled(g: Isa.Program, packets: seq<seq<Code>>, ends: set<Addr>, s: Isa.Machine, c: Isa.Cycle)
    requires Spells(g, packets) && JumpsAim(g, packets) && RuledImage(g, packets, ends)
    requires Aimed(packets, s) && Contained(packets, s, c) && ProgramRules.DataStep(ends, s, c)
    ensures ProgramRules.RuledStep(g, ends, s, c) && Aimed(packets, Isa.Step(g, s, c.act, c.env))
  {
    StepAims(g, packets, s, c);
    if c.act.Packet? {
      var a := Isa.Resolve(s, c.env.predBit).pc;
      StartHasNext(g, packets, a);
      var i: nat :| i < |packets| && PacketStart(packets, i) == a;
      assert RuledAt(g, packets, ends, i);
    }
  }

  /** A run that stays within a ruled image keeps the rules. */
  lemma {:induction false} RunRuled(
      g: Isa.Program, packets: seq<seq<Code>>, ends: set<Addr>, s: Isa.Machine, cs: seq<Isa.Cycle>)
    requires Spells(g, packets) && JumpsAim(g, packets) && RuledImage(g, packets, ends) && Aimed(packets, s)
    requires ContainedRun(g, packets, s, cs) && ProgramRules.DataRun(g, ends, s, cs)
    ensures ProgramRules.RuledRun(g, ends, s, cs) && Aimed(packets, Isa.Run(g, s, cs))
  {
    if cs != [] {
      RunRuled(g, packets, ends, s, cs[..|cs| - 1]);
      StepRuled(g, packets, ends, Isa.Run(g, s, cs[..|cs| - 1]), cs[|cs| - 1]);
    }
  }

  /** A packet the assembler wrote starts at `a`, and the decoder finds all of it. */
  ghost predicate IsPacketAt(m: Vliwfetch.Image, packets: seq<seq<Code>>, a: Addr) {
    exists i: nat :: i < |packets| && PacketStart(packets, i) == a && Decodes(Vliwfetch.BundleAt(m, a), packets[i])
  }

  /** From source text to execution: when the branches of a program name its labels and its packets keep
      the programming rules, then every run of the core within the image is a legal one, whatever the
      stalls, predicates and interrupts, and executes nothing but packets the assembler wrote, whole. */
  lemma CoreRunsSource(
      items: seq<Item>, data: seq<Datum>, ends: set<Addr>, power: Vliwfetch.FetchRegs, es: seq<Pcu.Env>)
    requires Assembles(Search(), items, data) && ForwardProgram(Search(), items, data) && BranchesToLabels(items)
    requires var m := ImageOf(GenOpcodes(Search(), items, data).value.imem);
      var g, packets, cs := CoreRefinement.ProgramOf(m), Packets(Search(), items, data),
                            CoreRefinement.Schedule(m, Core.Reset(power), es);
      && RuledImage(g, packets, ends)
      && ContainedRun(g, packets, Isa.Start, cs) && ProgramRules.DataRun(g, ends, Isa.Start, cs)
    ensures var m := ImageOf(GenOpcodes(Search(), items, data).value.imem);
      && CoreRefinement.LegalProgramRun(m, power, es)
      && forall a <- Core.Trace(m, Core.Reset(power), es) :: IsPacketAt(m, Packets(Search(), items, data), a)
  {
    var m := ImageOf(GenOpcodes(Search(), items, data).value.imem);
    var g, packets, cs := CoreRefinement.ProgramOf(m), Packets(Search(), items, data),
                          CoreRefinement.Schedule(m, Core.Reset(power), es);
    ImageSpells(Search(), items, data);
    LinkedProgramsAim(items, data);
    StartsAimed(packets);
    RunRuled(g, packets, ends, Isa.Start, cs);
    ProgramRules.RulesMakeLegal(m, ends, power, es);
    forall a | a in Core.Trace(m, Core.Reset(power), es)
      ensures IsPacketAt(m, packets, a)
    {
      var j: nat :| j < |Core.Trace(m, Core.Reset(power), es)| && Core.Trace(m, Core.Reset(power), es)[j] == a;
      CoreExecutesAssembledPackets(Search(), items, data, power, es, j);
    }
  }
}

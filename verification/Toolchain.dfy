/** From assembly text to executed packets: the assembler, the decoder and the core together. */
module Toolchain {
  import opened Words
  import opened Vliwdec
  import opened Encoding
  import opened UniqueEncoding
  import InsnTable
  import opened AsmPasses
  import opened PassAgreement
  import opened AsmImage
  import opened Assembler
  import Vliwfetch
  import Pcu
  import Isa
  import IsaFlow
  import Core
  import CoreRefinement

  // -------------------------------------------- the table is a sound encoder

  lemma UsingEmitsOnce(rows: seq<Row>, inst: Instruction, notLast: bool, syms: Symbols)
    requires Unambiguous(rows)
    ensures OneEncoding(Using(rows), inst, notLast, syms)
  {
    var e := Using(rows)(inst, notLast, syms);
    assert e == Encode(rows, inst, notLast, syms);
    if e.Emitted? && e.codes != [] {
      EncodesOnce(rows, inst, notLast, syms);
      EncodedBits(rows, inst, notLast, syms);
      assert e.codes == [e.codes[0]];
    }
  }

  lemma UsingSameSize(rows: seq<Row>, inst: Instruction, notLast: bool, table: Table)
    requires Unambiguous(rows)
    ensures SameSize(Using(rows), inst, notLast, table)
  {
    var e, e' := Using(rows)(inst, notLast, Ignored), Using(rows)(inst, notLast, Known(table));
    assert e == Encode(rows, inst, notLast, Ignored) && e' == Encode(rows, inst, notLast, Known(table));
    if e'.Emitted? && e'.codes != [] {
      PassesEncodeAlike(rows, inst, notLast, table);
    }
  }

  /** An unambiguous table gives both passes one encoding of one size. */
  lemma UsingSound(rows: seq<Row>)
    requires Unambiguous(rows)
    ensures Sound(Using(rows))
  {
    forall inst, notLast, syms
      ensures OneEncoding(Using(rows), inst, notLast, syms)
    {
      UsingEmitsOnce(rows, inst, notLast, syms);
    }
    forall inst, notLast, table
      ensures SameSize(Using(rows), inst, notLast, table)
    {
      UsingSameSize(rows, inst, notLast, table);
    }
  }

  /** The table of the AjarDSP assembler is one. */
  lemma InsnsSound()
    ensures Sound(Using(InsnTable.Insns()))
  {
    InsnsUnambiguous();
    UsingSound(InsnTable.Insns());
  }

  // ----------------------------------------------- the image as a program

  /** The packets of an image are where the core looks for them. */
  ghost predicate Spells(g: Isa.Program, packets: seq<seq<Code>>) {
    |Flatten(packets)| < WORD_SPAN && forall i: nat :: i < |packets| ==> SpellsAt(g, packets, i)
  }

  ghost predicate SpellsAt(g: Isa.Program, packets: seq<seq<Code>>, i: nat)
    requires i < |packets|
  {
    && PacketStart(packets, i) < WORD_SPAN
    && PacketStart(packets, i + 1) == Plus(PacketStart(packets, i), g(PacketStart(packets, i)).len)
  }

  lemma SameBundle(m: Mem, pc: Addr)
    ensures Vliwfetch.BundleAt(ImageOf(m), pc) == Decode(QuadAt(m, pc))
    ensures CoreRefinement.ProgramOf(ImageOf(m))(pc).len == Decode(QuadAt(m, pc)).len
  {
  }

  lemma StartInRange(packets: seq<seq<Code>>, i: nat)
    requires i <= |packets|
    ensures PacketStart(packets, i) <= |Flatten(packets)|
  {
    PrefixStarts(packets[..i], packets);
  }

  /** The core fetches from an assembled image exactly the packets the assembler wrote: at every
      packet's address the decoder outputs carry its instructions, and the next packet follows. */
  lemma ImageSpells(enc: EncodeFn, items: seq<Item>, data: seq<Datum>)
    requires Assembles(enc, items, data)
    ensures var image, packets := ImageOf(GenOpcodes(enc, items, data).value.imem), Packets(enc, items, data);
      && Spells(CoreRefinement.ProgramOf(image), packets)
      && forall i: nat :: i < |packets| ==> Spelled(image, packets, i)
  {
    var m, packets := GenOpcodes(enc, items, data).value.imem, Packets(enc, items, data);
    forall i: nat | i < |packets|
      ensures Spelled(ImageOf(m), packets, i)
    {
      PacketOfImage(enc, items, data, i, m, packets);
    }
    assert forall i: nat :: i < |packets| ==>
      Spelled(ImageOf(m), packets, i) && SpellsAt(CoreRefinement.ProgramOf(ImageOf(m)), packets, i);
  }

  lemma PacketOfImage(enc: EncodeFn, items: seq<Item>, data: seq<Datum>, i: nat, m: Mem, packets: seq<seq<Code>>)
    requires Assembles(enc, items, data) && i < |packets|
    requires m == GenOpcodes(enc, items, data).value.imem && packets == Packets(enc, items, data)
    ensures Spelled(ImageOf(m), packets, i)
  {
    ImageDecodes(enc, items, data, i);
    StartInRange(packets, i + 1);
    PacketSpelled(m, packets, i);
  }

  ghost predicate Spelled(image: Vliwfetch.Image, packets: seq<seq<Code>>, i: nat)
    requires i < |packets|
  {
    && SpellsAt(CoreRefinement.ProgramOf(image), packets, i)
    && Decodes(Vliwfetch.BundleAt(image, PacketStart(packets, i)), packets[i])
  }

  lemma PacketSpelled(m: Mem, packets: seq<seq<Code>>, i: nat)
    requires i < |packets| && PacketStart(packets, i) < WORD_SPAN && PacketStart(packets, i + 1) < WORD_SPAN
    requires Decodes(Decode(QuadAt(m, PacketStart(packets, i))), packets[i])
    requires PacketStart(packets, i + 1)
      == PacketStart(packets, i) + Decode(QuadAt(m, PacketStart(packets, i))).len
    ensures Spelled(ImageOf(m), packets, i)
  {
    SameBundle(m, PacketStart(packets, i));
  }

  /** Following the program from a packet goes through the packets in the order they were written,
      so that the delay slots of a branch are the packets written after it. */
  lemma {:induction false} NthPacket(g: Isa.Program, packets: seq<seq<Code>>, i: nat, k: nat)
    requires Spells(g, packets) && i + k <= |packets|
    ensures PacketStart(packets, i) < WORD_SPAN && PacketStart(packets, i + k) < WORD_SPAN
    ensures IsaFlow.Nth(g, PacketStart(packets, i), k) == PacketStart(packets, i + k)
  {
    StartInRange(packets, i);
    StartInRange(packets, i + k);
    if k > 0 {
      NthPacket(g, packets, i, k - 1);
      assert SpellsAt(g, packets, i + (k - 1));
    }
  }

  // ------------------------------------- the core stays on the assembled packets

  /** Where packets start, and where the image ends. */
  ghost predicate OnStart(packets: seq<seq<Code>>, a: Addr) {
    exists i: nat :: i <= |packets| && PacketStart(packets, i) == a
  }

  ghost predicate AtEnd(packets: seq<seq<Code>>, a: Addr) {
    a == |Flatten(packets)|
  }

  /** The instructions that jump to their immediate. */
  predicate JumpsToImmediate(w: Pcu.Inst) {
    w.Enc32() && (w.itype.JumpAbs? || w.itype.CallAbs?)
  }

  /** All the addresses the machine may go to are starts. */
  ghost predicate Aimed(packets: seq<seq<Code>>, s: Isa.Machine) {
    && OnStart(packets, s.pc) && OnStart(packets, s.retpc) && OnStart(packets, s.retipc)
    && OnStart(packets, s.loop.begin)
    && (s.pending.Pending? ==> OnStart(packets, s.pending.target))
    && (JumpsToImmediate(s.last) ==> OnStart(packets, s.last.imm))
  }

  /** The jumps and calls of a program go to starts: they come from labels. */
  ghost predicate JumpsAim(g: Isa.Program, packets: seq<seq<Code>>) {
    forall i: nat :: i < |packets| && PacketStart(packets, i) < WORD_SPAN ==>
      var inst := g(PacketStart(packets, i)).inst;
      JumpsToImmediate(inst) ==> OnStart(packets, inst.imm)
  }

  /** The cycle writes only starts into the address registers, enters interrupts only if their vector
      is a start, and does not run off the end of the image. */
  ghost predicate Contained(packets: seq<seq<Code>>, s: Isa.Machine, c: Isa.Cycle) {
    && (c.act.Packet? ==> !AtEnd(packets, Isa.Resolve(s, c.env.predBit).pc))
    && (c.act.Interrupt? ==> OnStart(packets, Pcu.INTERRUPT_VECTOR))
    && (c.env.write.WriteRetpc? || c.env.write.WriteRetipc? ==> OnStart(packets, c.env.write.value))
  }

  ghost predicate ContainedRun(g: Isa.Program, packets: seq<seq<Code>>, s: Isa.Machine, cs: seq<Isa.Cycle>) {
    cs == [] || (
      && ContainedRun(g, packets, s, cs[..|cs| - 1])
      && Contained(packets, Isa.Run(g, s, cs[..|cs| - 1]), cs[|cs| - 1]))
  }

  lemma ResolveAims(packets: seq<seq<Code>>, s: Isa.Machine, predBit: bool)
    requires Aimed(packets, s)
    ensures Aimed(packets, Isa.Resolve(s, predBit))
  {
  }

  lemma StartHasNext(g: Isa.Program, packets: seq<seq<Code>>, a: Addr)
    requires Spells(g, packets) && JumpsAim(g, packets) && OnStart(packets, a) && !AtEnd(packets, a)
    ensures OnStart(packets, Plus(a, g(a).len))
    ensures JumpsToImmediate(g(a).inst) ==> OnStart(packets, g(a).inst.imm)
    ensures exists i: nat :: i < |packets| && PacketStart(packets, i) == a
  {
    var i: nat :| i <= |packets| && PacketStart(packets, i) == a;
    assert packets[..|packets|] == packets;
    assert i < |packets| && SpellsAt(g, packets, i);
    assert PacketStart(packets, i + 1) == Plus(a, g(a).len);
  }

  lemma ExecuteAims(g: Isa.Program, packets: seq<seq<Code>>, s: Isa.Machine)
    requires Spells(g, packets) && JumpsAim(g, packets) && Aimed(packets, s) && !AtEnd(packets, s.pc)
    ensures Aimed(packets, Isa.Execute(g, s))
  {
    StartHasNext(g, packets, s.pc);
  }

  lemma MiddleAims(g: Isa.Program, packets: seq<seq<Code>>, s: Isa.Machine, act: Isa.Act)
    requires Spells(g, packets) && JumpsAim(g, packets) && Aimed(packets, s)
    requires act.Packet? ==> !AtEnd(packets, s.pc)
    requires act.Interrupt? ==> OnStart(packets, Pcu.INTERRUPT_VECTOR)
    ensures Aimed(packets, Isa.Middle(g, s, act))
  {
    if act.Packet? {
      ExecuteAims(g, packets, s);
    }
  }

  lemma WriteAims(packets: seq<seq<Code>>, s: Isa.Machine, w: Pcu.SpecWrite)
    requires Aimed(packets, s)
    requires w.WriteRetpc? || w.WriteRetipc? ==> OnStart(packets, w.value)
    ensures Aimed(packets, Isa.Write(s, w))
  {
  }

  lemma StepAims(g: Isa.Program, packets: seq<seq<Code>>, s: Isa.Machine, c: Isa.Cycle)
    requires Spells(g, packets) && JumpsAim(g, packets) && Aimed(packets, s) && Contained(packets, s, c)
    ensures Aimed(packets, Isa.Step(g, s, c.act, c.env))
    ensures c.act.Packet? ==> OnStart(packets, Isa.Resolve(s, c.env.predBit).pc)
  {
    var r := Isa.Resolve(s, c.env.predBit);
    ResolveAims(packets, s, c.env.predBit);
    MiddleAims(g, packets, r, c.act);
    WriteAims(packets, Isa.Middle(g, r, c.act), c.env.write);
  }

  lemma {:induction false} RunAims(g: Isa.Program, packets: seq<seq<Code>>, s: Isa.Machine, cs: seq<Isa.Cycle>)
    requires Spells(g, packets) && JumpsAim(g, packets) && Aimed(packets, s) && ContainedRun(g, packets, s, cs)
    ensures Aimed(packets, Isa.Run(g, s, cs))
    ensures forall a <- Isa.Trace(g, s, cs) :: OnStart(packets, a) && !AtEnd(packets, a)
  {
    if cs != [] {
      RunAims(g, packets, s, cs[..|cs| - 1]);
      StepAims(g, packets, Isa.Run(g, s, cs[..|cs| - 1]), cs[|cs| - 1]);
    }
  }

  /** Over every legal run from reset on an assembled image whose jumps come from labels, every
      packet the core executes is one the assembler wrote, decoded whole and in order. */
  lemma CoreExecutesAssembledPackets(
      enc: EncodeFn, items: seq<Item>, data: seq<Datum>, power: Vliwfetch.FetchRegs, es: seq<Pcu.Env>, j: nat)
    requires Assembles(enc, items, data)
    requires var m := ImageOf(GenOpcodes(enc, items, data).value.imem);
      var g, packets, cs := CoreRefinement.ProgramOf(m), Packets(enc, items, data),
                            CoreRefinement.Schedule(m, Core.Reset(power), es);
      && CoreRefinement.LegalProgramRun(m, power, es)
      && JumpsAim(g, packets) && ContainedRun(g, packets, Isa.Start, cs)
      && j < |Core.Trace(m, Core.Reset(power), es)|
    ensures var m := ImageOf(GenOpcodes(enc, items, data).value.imem);
      var packets, a := Packets(enc, items, data), Core.Trace(m, Core.Reset(power), es)[j];
      exists i: nat :: i < |packets| && PacketStart(packets, i) == a && Decodes(Vliwfetch.BundleAt(m, a), packets[i])
  {
    var m := ImageOf(GenOpcodes(enc, items, data).value.imem);
    var g, packets, cs := CoreRefinement.ProgramOf(m), Packets(enc, items, data),
                          CoreRefinement.Schedule(m, Core.Reset(power), es);
    ImageSpells(enc, items, data);
    var p := CoreRefinement.CoreRefinesIsa(m, power, es);
    StartsAimed(packets);
    RunAims(g, packets, Isa.Start, cs);
    var a := Core.Trace(m, Core.Reset(power), es)[j];
    assert a in Isa.Trace(g, Isa.Start, cs);
    StartHasNext(g, packets, a);
    var i: nat :| i < |packets| && PacketStart(packets, i) == a;
    assert Spelled(m, packets, i);
  }

  lemma StartsAimed(packets: seq<seq<Code>>)
    ensures Aimed(packets, Isa.Start)
  {
    assert packets[..0] == [];
    assert PacketStart(packets, 0) == 0;
  }
}

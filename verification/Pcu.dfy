/** The program control unit of rtl/verilog/pcu.v and the dispatch of its instruction in
    rtl/verilog/ajardsp_top.v. */
module Pcu {
  import opened Words
  import opened WordBits
  import opened Vliwdec

  // ---------------------------------------------------- instruction fields

  /** Bits 7..4 of an instruction for this unit. */
  datatype IType = Nil | Bkrep | CallAbs | Rets | JumpAbs | Reti | Eint | Dint | Other | Halt

  /** The pipe registers of the unit, through the fields it looks at: the size bit (1), the
      encoding-space bit (29), the predicate-inversion bit (28), the immediate (23..8) and the
      delay-slot bits of the encoding in use. */
  datatype Inst = Inst(itype: IType, wide: bool, enc: bool, predNeg: bool, imm: Addr, slots: nat) {
    /** The 32-bit encoding space needs both bits. */
    predicate Enc32() {
      wide && enc
    }

    predicate IsBkrep() {
      Enc32() && itype == Bkrep
    }

    /** pred_tst_bit_w: a 16-bit instruction always executes. */
    predicate Executes(predBit: bool) {
      wide ==> predBit != predNeg
    }
  }

  const NOP := Inst(Nil, false, false, false, 0, 0)

  function TypeOf(w: Wire): IType {
    var t := (w.lo >> 4) & 0xF;
    if t == 0 then Nil else if t == 1 then Bkrep else if t == 2 then CallAbs
    else if t == 3 then Rets else if t == 4 then JumpAbs else if t == 5 then Reti
    else if t == 6 then Eint else if t == 7 then Dint else if t == 15 then Halt else Other
  }

  predicate EncBit(w: Wire) {
    w.hi & 0x2000 == 0x2000
  }

  /** Bits 25..24 in the 32-bit encoding, 13..12 in the 16-bit encoding. */
  function SlotsOf(w: Wire): nat {
    var field := if Wide(w.lo) && EncBit(w) then (w.hi >> 8) & 3 else (w.lo >> 12) & 3;
    if field == 0 then 0 else if field == 1 then 1 else if field == 2 then 2 else 3
  }

  /** Bits 23..8. */
  function ImmBits(w: Wire): bv16 {
    (w.hi << 8) | (w.lo >> 8)
  }

  function Fields(w: Wire): Inst {
    Inst(TypeOf(w), Wide(w.lo), EncBit(w), w.hi & 0x1000 == 0x1000,
         ToAddr(ImmBits(w)), SlotsOf(w))
  }

  /** Bits 3..2 select the unit; 00 is the control unit. */
  predicate ForPcu(w: Wire) {
    w.lo & 0xC == 0
  }

  /** The first valid instruction of the packet that is for the control unit. */
  function Dispatch(b: Bundle, enabled: bool): Inst {
    if enabled && b.s0.valid && ForPcu(b.s0.inst) then Fields(b.s0.inst)
    else if enabled && b.s1.valid && ForPcu(b.s1.inst) then Fields(b.s1.inst)
    else if enabled && b.s2.valid && ForPcu(b.s2.inst) then Fields(b.s2.inst)
    else if enabled && b.s3.valid && ForPcu(b.s3.inst) then Fields(b.s3.inst)
    else NOP
  }

  // ------------------------------------------------------------- registers

  /** The instruction pipe and what travels with it. */
  datatype Pipe = Pipe(inst0: Inst, inst1: Inst, executes1: bool, slots: nat, prevPc: Addr)

  /** The hardware loop registers. */
  datatype Loop = Loop(begin: Addr, end: Addr, count: Addr)

  /** dslot_r, interrupt_dslot_r and invalidate_dslot_r, bit by bit. */
  datatype Slots = Slots(dslot0: bool, dslot1: bool, irq0: bool, irq1: bool, kill: bool)

  datatype PcuRegs = PcuRegs(pipe: Pipe, retpc: Addr, retipc: Addr, loop: Loop, slots: Slots, irqEnable: bool)

  /** A write on the special-register bus that concerns this unit. */
  datatype SpecWrite = NoWrite | WriteRetpc(value: Addr) | WriteRetipc(value: Addr) | WriteLoopCount(value: Addr)

  /** One cycle's inputs from the rest of the core. */
  datatype Env = Env(clkEn: bool, predBit: bool, write: SpecWrite, irq: bool)

  /** The combinational outputs. */
  datatype Control = Control(jump: Option<Addr>, halt: bool, irqAck: bool, reqSlots: nat)

  const INTERRUPT_VECTOR: Addr := 4

  predicate AtLoopEnd(l: Loop, pc: Addr) {
    l.count != 0 && l.end == pc
  }

  const IDLE := Control(None, false, false, 2)

  function ControlOf(r: PcuRegs, e: Env, pc: Addr): Control {
    var w := r.pipe.inst0;
    if AtLoopEnd(r.loop, pc) then
      IDLE.(jump := Some(r.loop.begin))
    else if w.Executes(e.predBit) && w.itype != Nil then
      if w.Enc32() then
        if w.itype == CallAbs || w.itype == JumpAbs
        then IDLE.(jump := Some(w.imm), reqSlots := w.slots)
        else IDLE
      else
        if w.itype == Rets then IDLE.(jump := Some(r.retpc), reqSlots := w.slots)
        else if w.itype == Reti then IDLE.(jump := Some(r.retipc), reqSlots := w.slots)
        else if w.itype == Halt then IDLE.(halt := true)
        else IDLE
    else if e.irq && !r.slots.dslot0 && r.irqEnable then
      IDLE.(jump := Some(INTERRUPT_VECTOR), irqAck := true)
    else
      IDLE
  }

  /** invalidate_insns_o: the packet of this cycle is not dispatched. */
  function Invalidates(r: PcuRegs, c: Control): bool {
    r.slots.irq0 || c.irqAck || c.reqSlots == 0 || r.slots.kill
  }

  function Reset(): PcuRegs {
    PcuRegs(Pipe(NOP, NOP, true, 0, 0), 0, 0, Loop(0, 0, 0), Slots(false, false, false, false, false), false)
  }

  function NextPipe(p: Pipe, e: Env, c: Control, inst: Inst, pc: Addr): Pipe {
    Pipe(inst, p.inst0, p.inst0.Executes(e.predBit), c.reqSlots, pc)
  }

  function NextRetpc(r: PcuRegs, e: Env, pc: Addr, nextPc: Addr): Addr {
    if e.write.WriteRetpc? then e.write.value
    else if r.pipe.inst1.itype == CallAbs && r.pipe.executes1 then
      if r.pipe.slots == 0 then r.pipe.prevPc else if r.pipe.slots == 1 then pc else nextPc
    else r.retpc
  }

  function NextRetipc(retipc: Addr, e: Env, c: Control, pc: Addr): Addr {
    if e.write.WriteRetipc? then e.write.value else if c.irqAck then pc else retipc
  }

  function NextLoop(l: Loop, inst0: Inst, e: Env, invalid: bool, pc: Addr): Loop {
    if inst0.IsBkrep() then l.(begin := pc, end := inst0.imm)
    else if AtLoopEnd(l, pc) && !invalid then l.(count := l.count - 1)
    else if e.write.WriteLoopCount? then l.(count := e.write.value)
    else l
  }

  function NextSlots(s: Slots, c: Control): Slots {
    Slots(c.jump.Some? || s.dslot1, c.jump.Some?, c.irqAck || s.irq1, false, c.reqSlots <= 1)
  }

  function NextIrqEnable(enabled: bool, inst0: Inst, c: Control): bool {
    if c.irqAck then false
    else if inst0.itype == Reti || inst0.itype == Eint then true
    else if inst0.itype == Dint then false
    else enabled
  }

  /** One rising clock edge; `inst`, `pc` and `nextPc` come from dispatch and fetch. */
  function Step(r: PcuRegs, e: Env, inst: Inst, pc: Addr, nextPc: Addr): PcuRegs {
    if !e.clkEn then
      r
    else
      var c := ControlOf(r, e, pc);
      PcuRegs(NextPipe(r.pipe, e, c, inst, pc),
           NextRetpc(r, e, pc, nextPc),
           NextRetipc(r.retipc, e, c, pc),
           NextLoop(r.loop, r.pipe.inst0, e, Invalidates(r, c), pc),
           NextSlots(r.slots, c),
           NextIrqEnable(r.irqEnable, r.pipe.inst0, c))
  }

  /** The clocked unit. */
  class Unit {
    var pipe: Pipe
    var retpc: Addr
    var retipc: Addr
    var loop: Loop
    var slots: Slots
    var irqEnable: bool

    function State(): PcuRegs
      reads this
    {
      PcuRegs(pipe, retpc, retipc, loop, slots, irqEnable)
    }

    constructor ()
      ensures State() == Reset()
    {
      pipe, retpc, retipc := Pipe(NOP, NOP, true, 0, 0), 0, 0;
      loop, slots, irqEnable := Loop(0, 0, 0), Slots(false, false, false, false, false), false;
    }

    method UpdateSlots(c: Control)
      modifies `slots
      ensures slots == NextSlots(old(slots), c)
    {
      slots := slots.(dslot0 := slots.dslot1, dslot1 := false);
      if c.jump.Some? {
        slots := slots.(dslot0 := true, dslot1 := true);
      }
      slots := slots.(kill := c.reqSlots == 0 || c.reqSlots == 1);
      slots := slots.(irq0 := slots.irq1, irq1 := false);
      if c.irqAck {
        slots := slots.(irq0 := true);
      }
    }

    method UpdateIrqEnable(c: Control)
      modifies `irqEnable
      ensures irqEnable == NextIrqEnable(old(irqEnable), pipe.inst0, c)
    {
      var itype := pipe.inst0.itype;
      if c.irqAck {
        irqEnable := false;
      } else if itype == Reti || itype == Eint {
        irqEnable := true;
      } else if itype == Dint {
        irqEnable := false;
      }
    }

    method UpdateLoop(e: Env, invalid: bool, pc: Addr)
      modifies `loop
      ensures loop == NextLoop(old(loop), pipe.inst0, e, invalid, pc)
    {
      if pipe.inst0.IsBkrep() {
        loop := loop.(begin := pc, end := pipe.inst0.imm);
      } else if loop.count != 0 && loop.end == pc && !invalid {
        loop := loop.(count := loop.count - 1);
      } else if e.write.WriteLoopCount? {
        loop := loop.(count := e.write.value);
      }
    }

    method UpdateReturnAddresses(e: Env, c: Control, pc: Addr, nextPc: Addr)
      modifies `retpc, `retipc
      ensures retpc == old(NextRetpc(State(), e, pc, nextPc))
      ensures retipc == NextRetipc(old(retipc), e, c, pc)
    {
      if e.write.WriteRetpc? {
        retpc := e.write.value;
      } else if pipe.inst1.itype == CallAbs && pipe.executes1 {
        retpc := if pipe.slots == 0 then pipe.prevPc else if pipe.slots == 1 then pc else nextPc;
      }
      if e.write.WriteRetipc? {
        retipc := e.write.value;
      } else if c.irqAck {
        retipc := pc;
      }
    }

    /** The `always` blocks in turn. The pipe, which several of them read, is assigned last, as
        all of them read the values from before the edge. */
    method Clock(e: Env, inst: Inst, pc: Addr, nextPc: Addr)
      modifies this
      ensures State() == Step(old(State()), e, inst, pc, nextPc)
    {
      if !e.clkEn {
        return;
      }
      var c := ControlOf(State(), e, pc);
      var invalid := Invalidates(State(), c);
      UpdateReturnAddresses(e, c, pc, nextPc);
      UpdateSlots(c);
      UpdateIrqEnable(c);
      UpdateLoop(e, invalid, pc);
      pipe := NextPipe(pipe, e, c, inst, pc);
    }
  }
}

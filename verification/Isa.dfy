/** The instruction-set machine the control path implements: no pipeline, no queue, one packet at
    a time. Branches, calls and returns take effect after their delay slots; the hardware loop
    repeats the packets from the one after `bkrep` to the one after the end label. */
module Isa {
  import opened Words
  import opened Pcu

  /** The packet at an address: its length in words and its control instruction. */
  datatype Fetched = Fetched(len: nat, inst: Inst)

  type Program = Addr -> Fetched

  /** A redirection under way: `slots` more packets execute first. A call also links. */
  datatype Pending = NoPending | Pending(target: Addr, slots: nat, link: bool)

  datatype Machine = Machine(
    pc: Addr,             // the next packet to execute
    pending: Pending,
    last: Inst,           // control instruction of the last executed packet, not yet acted on
    lastInSlot: bool,     // that packet sat in a delay slot
    retpc: Addr,
    retipc: Addr,
    irqEnable: bool,
    loop: Loop)

  const Start := Machine(0, NoPending, NOP, false, 0, 0, false, Loop(0, 0, 0))

  /** What a cycle contributes: a packet, an interrupt entry, or nothing. `Bubble` is the cycle an
      unaligned target costs, and the two start-up cycles. */
  datatype Act = Packet | Interrupt | Nothing | Bubble

  // ------------------------------------------------- control instructions

  datatype Branch = NoBranch | Branch(target: Addr, slots: nat, link: bool)

  /** The redirection an instruction asks for once its predicate is known. Three delay slots
      can be encoded but there are only two. */
  function BranchOf(w: Inst, predBit: bool, retpc: Addr, retipc: Addr): Branch {
    var slots := if w.slots > 2 then 2 else w.slots;
    if !w.Executes(predBit) then NoBranch
    else if w.Enc32() && w.itype == CallAbs then Branch(w.imm, slots, true)
    else if w.Enc32() && w.itype == JumpAbs then Branch(w.imm, slots, false)
    else if !w.Enc32() && w.itype == Rets then Branch(retpc, slots, false)
    else if !w.Enc32() && w.itype == Reti then Branch(retipc, slots, false)
    else NoBranch
  }

  /** A branch or call through a pointer register: the hardware never jumps for it. */
  predicate ThroughRegister(w: Inst) {
    !w.Enc32() && (w.itype == CallAbs || w.itype == JumpAbs)
  }

  function Redirect(s: Machine): Machine
    requires s.pending.Pending?
  {
    s.(pc := s.pending.target,
       retpc := if s.pending.link then s.pc else s.retpc,
       pending := NoPending)
  }

  function Settle(s: Machine): Machine {
    if s.pending.Pending? && s.pending.slots == 0 then Redirect(s) else s
  }

  /** Act on the control instruction of the last packet. */
  function Resolve(s: Machine, predBit: bool): Machine {
    var w := s.last;
    var b := BranchOf(w, predBit, s.retpc, s.retipc);
    Settle(s.(
      last := NOP,
      pending := if b.Branch? then Pending(b.target, b.slots, b.link) else s.pending,
      loop := if w.IsBkrep() then s.loop.(begin := s.pc, end := w.imm) else s.loop,
      irqEnable := if w.itype == Reti || w.itype == Eint then true
                   else if w.itype == Dint then false
                   else s.irqEnable))
  }

  /** Execute the packet at `pc`. */
  function Execute(g: Program, s: Machine): Machine {
    var t := s.(pc := Plus(s.pc, g(s.pc).len), last := g(s.pc).inst, lastInSlot := false);
    if s.pending.Pending? then
      Settle(t.(lastInSlot := true,
                pending := s.pending.(slots := if s.pending.slots > 0 then s.pending.slots - 1 else 0)))
    else if AtLoopEnd(s.loop, s.pc) then
      t.(lastInSlot := true,
         pending := Pending(s.loop.begin, 1, false),
         loop := s.loop.(count := s.loop.count - 1))
    else
      t
  }

  function EnterInterrupt(s: Machine): Machine {
    s.(retipc := s.pc, pc := INTERRUPT_VECTOR, irqEnable := false)
  }

  /** The loop registers after the cycle of an interrupt entry: a `bkrep` whose predicate fails does not
      hold the interrupt off, and still sets them. */
  function LoopAfterEntry(s: Machine, e: Env): Loop {
    if s.last.IsBkrep() then s.loop.(begin := s.pc, end := s.last.imm)
    else if e.write.WriteLoopCount? then s.loop.(count := e.write.value)
    else s.loop
  }

  function Write(s: Machine, w: SpecWrite): Machine {
    match w
    case NoWrite => s
    case WriteRetpc(v) => s.(retpc := v)
    case WriteRetipc(v) => s.(retipc := v)
    case WriteLoopCount(v) => s.(loop := s.loop.(count := v))
  }

  function Middle(g: Program, s: Machine, act: Act): Machine {
    match act
    case Packet => Execute(g, s)
    case Interrupt => EnterInterrupt(s)
    case _ => s
  }

  function Step(g: Program, s: Machine, act: Act, e: Env): Machine {
    Write(Middle(g, Resolve(s, e.predBit), act), e.write)
  }

  // ------------------------------------------------ programming rules

  /** The programs the architecture allows: exactly the rules below. */
  ghost predicate Legal(s: Machine, act: Act, e: Env) {
    var w := s.last;
    var b := BranchOf(w, e.predBit, s.retpc, s.retipc);
    var r := Resolve(s, e.predBit);
    // no branch and no bkrep in a delay slot or in the last two packets of a running loop
    && (s.lastInSlot ==> !b.Branch? && !w.IsBkrep())
    && (b.Branch? || w.IsBkrep() ==> !AtLoopEnd(s.loop, s.pc))
    && (act.Packet? && r.pending.Pending? ==> !AtLoopEnd(r.loop, r.pc))
    // a loop body has at least three packets
    && (w.IsBkrep() ==> !AtLoopEnd(r.loop, s.pc))
    // the branch and the call through a pointer register are not implemented
    && !(ThroughRegister(w) && w.Executes(e.predBit))
    // a running loop's end packet is not entered through a fetch bubble
    && (act.Bubble? ==> !AtLoopEnd(s.loop, s.pc))
    // a special-register write does not collide with the unit's own update
    && (e.write.WriteRetpc? && b.Branch? && b.link ==> b.slots == 2)
    && (e.write.WriteLoopCount? ==> !w.IsBkrep() && !(act.Packet? && AtLoopEnd(r.loop, r.pc)))
  }

  /** An interrupt may be entered only between packets: nothing pending, nothing to act on. */
  ghost predicate Precise(s: Machine, act: Act, e: Env) {
    act.Interrupt? ==>
      && e.irq && s.irqEnable && s.pending.NoPending?
      && BranchOf(s.last, e.predBit, s.retpc, s.retipc).NoBranch?
      && !AtLoopEnd(s.loop, s.pc)
  }

  // ------------------------------------------------------------ whole runs

  /** One cycle of a run: what the hardware contributed, and the inputs of the cycle. */
  datatype Cycle = Cycle(act: Act, env: Env)

  function Run(g: Program, s: Machine, cs: seq<Cycle>): Machine {
    if cs == [] then s
    else Step(g, Run(g, s, cs[..|cs| - 1]), cs[|cs| - 1].act, cs[|cs| - 1].env)
  }

  /** The packet a cycle executes is the one at `pc` once the last instruction is resolved. */
  function Executes(s: Machine, c: Cycle): seq<Addr> {
    if c.act.Packet? then [Resolve(s, c.env.predBit).pc] else []
  }

  function Trace(g: Program, s: Machine, cs: seq<Cycle>): seq<Addr> {
    if cs == [] then []
    else Trace(g, s, cs[..|cs| - 1]) + Executes(Run(g, s, cs[..|cs| - 1]), cs[|cs| - 1])
  }

  ghost predicate LegalRun(g: Program, s: Machine, cs: seq<Cycle>) {
    cs == [] || (
      && LegalRun(g, s, cs[..|cs| - 1])
      && Legal(Run(g, s, cs[..|cs| - 1]), cs[|cs| - 1].act, cs[|cs| - 1].env))
  }

  lemma RunStep(g: Program, s: Machine, cs: seq<Cycle>, c: Cycle)
    ensures Run(g, s, cs + [c]) == Step(g, Run(g, s, cs), c.act, c.env)
  {
    assert (cs + [c])[..|cs + [c]| - 1] == cs;
  }

  lemma {:induction false} AppendRun(g: Program, s: Machine, a: seq<Cycle>, b: seq<Cycle>)
    ensures Run(g, s, a + b) == Run(g, Run(g, s, a), b)
  {
    if b == [] {
      assert a + b == a;
    } else {
      var init, c := b[..|b| - 1], b[|b| - 1];
      AppendRun(g, s, a, init);
      RunStep(g, s, a + init, c);
      RunStep(g, Run(g, s, a), init, c);
      Assoc(a, init, [c]);
      assert init + [c] == b;
    }
  }

  lemma RunLast(g: Program, s: Machine, cs: seq<Cycle>, c: Cycle)
    ensures Trace(g, s, cs + [c]) == Trace(g, s, cs) + Executes(Run(g, s, cs), c)
    ensures LegalRun(g, s, cs + [c]) <==> LegalRun(g, s, cs) && Legal(Run(g, s, cs), c.act, c.env)
  {
    assert (cs + [c])[..|cs + [c]| - 1] == cs;
  }

  lemma {:induction false} AppendTrace(g: Program, s: Machine, a: seq<Cycle>, b: seq<Cycle>)
    ensures Trace(g, s, a + b) == Trace(g, s, a) + Trace(g, Run(g, s, a), b)
  {
    if b == [] {
      assert a + b == a;
    } else {
      var init, c := b[..|b| - 1], b[|b| - 1];
      AppendTrace(g, s, a, init);
      AppendRun(g, s, a, init);
      var t := Run(g, s, a);
      RunLast(g, s, a + init, c);
      RunLast(g, t, init, c);
      Assoc(Trace(g, s, a), Trace(g, t, init), Executes(Run(g, t, init), c));
      Assoc(a, init, [c]);
      assert init + [c] == b;
    }
  }

  lemma {:induction false} AppendLegal(g: Program, s: Machine, a: seq<Cycle>, b: seq<Cycle>)
    ensures LegalRun(g, s, a + b) <==> LegalRun(g, s, a) && LegalRun(g, Run(g, s, a), b)
  {
    if b == [] {
      assert a + b == a;
    } else {
      var init, c := b[..|b| - 1], b[|b| - 1];
      AppendLegal(g, s, a, init);
      AppendRun(g, s, a, init);
      RunLast(g, s, a + init, c);
      RunLast(g, Run(g, s, a), init, c);
      assert init + [c] == b && (a + init) + [c] == a + b;
    }
  }

  lemma Append(g: Program, s: Machine, a: seq<Cycle>, b: seq<Cycle>)
    ensures Run(g, s, a + b) == Run(g, Run(g, s, a), b)
    ensures Trace(g, s, a + b) == Trace(g, s, a) + Trace(g, Run(g, s, a), b)
    ensures LegalRun(g, s, a + b) <==> LegalRun(g, s, a) && LegalRun(g, Run(g, s, a), b)
  {
    AppendRun(g, s, a, b);
    AppendTrace(g, s, a, b);
    AppendLegal(g, s, a, b);
  }

  /** Every interrupt of a run is entered between packets. */
  ghost predicate PreciseRun(g: Program, s: Machine, cs: seq<Cycle>) {
    cs == [] || (
      && PreciseRun(g, s, cs[..|cs| - 1])
      && Precise(Run(g, s, cs[..|cs| - 1]), cs[|cs| - 1].act, cs[|cs| - 1].env))
  }
}

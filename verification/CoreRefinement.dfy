/** The pipelined control path refines the instruction-set machine, over every run from reset in
    which the program keeps the programming rules. */
module CoreRefinement {
  import opened Words
  import opened Vliwdec
  import opened Vliwfetch
  import opened Pcu
  import Core
  import Isa

  // ------------------------- the control unit beside the plain fetcher

  /** What a cycle contributes to the instruction-set machine. */
  function ActOf(r: PcuRegs, p: Plain, e: Env): Isa.Act {
    var ctl := ControlOf(r, e, PcOf(p));
    if !Shows(p) then Isa.Bubble
    else if ctl.irqAck then Isa.Interrupt
    else if Invalidates(r, ctl) then Isa.Nothing
    else Isa.Packet
  }

  /** The instruction dispatched to the control unit in a cycle. */
  function Dispatched(g: Isa.Program, r: PcuRegs, p: Plain, e: Env): Inst {
    if Shows(p) && !Invalidates(r, ControlOf(r, e, PcOf(p))) then g(PcOf(p)).inst else NOP
  }

  /** A call whose return address the unit will capture at the end of this cycle. */
  predicate LinkDue(p: Pipe) {
    p.inst1.itype == CallAbs && p.executes1
  }

  /** The instruction in the pipe asks for nothing unless it is marked as sitting in a slot. */
  ghost predicate Quiet(s: Isa.Machine) {
    s.last == NOP || s.lastInSlot
  }

  ghost predicate Settled(r: PcuRegs, s: Isa.Machine) {
    s.pending.NoPending? && s.retpc == r.retpc && !LinkDue(r.pipe) && !r.slots.kill && !r.slots.irq0
  }

  /** The refinement relation, one case for each phase of the fetcher. */
  ghost predicate Rel(r: PcuRegs, p: Plain, s: Isa.Machine) {
    && r.pipe.inst0 == s.last && r.retipc == s.retipc && r.irqEnable == s.irqEnable && r.loop == s.loop
    && !r.slots.irq1
    && match p
       case Starting(_) => s.pc == 0 && s.last == NOP && !s.irqEnable && Settled(r, s)
       case At(pc) => s.pc == pc && Settled(r, s)
       case Waiting(pc) => s.pc == pc && Quiet(s) && r.slots.dslot0 && Settled(r, s)
       case Leaving(pc, target) =>
         && Quiet(s) && r.slots.dslot0 && r.slots.dslot1
         && if r.slots.kill || r.slots.irq0 then
              && s.pc == target && s.pending.NoPending?
              && s.retpc == (if !LinkDue(r.pipe) then r.retpc
                             else if r.pipe.slots == 0 then r.pipe.prevPc else pc)
              && (LinkDue(r.pipe) ==> r.pipe.slots <= 1)
            else
              && s.pc == pc && s.pending == Isa.Pending(target, 1, LinkDue(r.pipe))
              && s.retpc == r.retpc
              && (LinkDue(r.pipe) ==> r.pipe.slots >= 2)
  }

  /** The premise of every step lemma; `next` is the address after the packet shown, if one is. */
  ghost predicate Premise(g: Isa.Program, r: PcuRegs, p: Plain, s: Isa.Machine, e: Env, next: Addr) {
    && Rel(r, p, s) && e.clkEn && Isa.Legal(s, ActOf(r, p, e), e)
    && (Shows(p) ==> next == Plus(PcOf(p), g(PcOf(p)).len))
  }

  ghost predicate Kept(g: Isa.Program, r: PcuRegs, p: Plain, s: Isa.Machine, e: Env, next: Addr) {
    Rel(Pcu.Step(r, e, Dispatched(g, r, p, e), PcOf(p), next),
        PlainMove(p, next, Input(true, ControlOf(r, e, PcOf(p)).jump)),
        Isa.Step(g, s, ActOf(r, p, e), e))
  }

  lemma StepStarting(g: Isa.Program, r: PcuRegs, p: Plain, s: Isa.Machine, e: Env, next: Addr)
    requires p.Starting? && Premise(g, r, p, s, e, next)
    ensures Kept(g, r, p, s, e, next)
  {
  }

  lemma StepWaiting(g: Isa.Program, r: PcuRegs, p: Plain, s: Isa.Machine, e: Env, next: Addr)
    requires p.Waiting? && Premise(g, r, p, s, e, next)
    ensures Kept(g, r, p, s, e, next)
  {
  }

  /** In the leaving phase only a loop end can raise the jump line, and the fetcher ignores it. */
  lemma ControlLeaving(r: PcuRegs, p: Plain, s: Isa.Machine, e: Env)
    requires p.Leaving? && Rel(r, p, s) && e.clkEn && Isa.Legal(s, ActOf(r, p, e), e)
    ensures var ctl := ControlOf(r, e, PcOf(p)); !ctl.irqAck && ctl.reqSlots == 2
    ensures s.last.itype == CallAbs ==> !s.last.Executes(e.predBit)
    ensures !s.last.IsBkrep() && Isa.BranchOf(s.last, e.predBit, s.retpc, s.retipc).NoBranch?
    ensures ActOf(r, p, e) == (if r.slots.kill || r.slots.irq0 then Isa.Nothing else Isa.Packet)
  {
  }

  /** Leaving with the packets of this cycle killed: the target is next. */
  lemma StepLeavingKilled(g: Isa.Program, r: PcuRegs, p: Plain, s: Isa.Machine, e: Env, next: Addr)
    requires p.Leaving? && Premise(g, r, p, s, e, next) && (r.slots.kill || r.slots.irq0)
    ensures Kept(g, r, p, s, e, next)
  {
    ControlLeaving(r, p, s, e);
  }

  /** Leaving through the last delay slot, with a call to link. */
  lemma StepLeavingLink(g: Isa.Program, r: PcuRegs, p: Plain, s: Isa.Machine, e: Env, next: Addr)
    requires p.Leaving? && Premise(g, r, p, s, e, next) && !r.slots.kill && !r.slots.irq0 && LinkDue(r.pipe)
    ensures Kept(g, r, p, s, e, next)
  {
    ControlLeaving(r, p, s, e);
  }

  /** Leaving through the last delay slot, with nothing to link. */
  lemma StepLeavingSlot(g: Isa.Program, r: PcuRegs, p: Plain, s: Isa.Machine, e: Env, next: Addr)
    requires p.Leaving? && Premise(g, r, p, s, e, next) && !r.slots.kill && !r.slots.irq0 && !LinkDue(r.pipe)
    ensures Kept(g, r, p, s, e, next)
  {
    ControlLeaving(r, p, s, e);
  }

  lemma StepLeaving(g: Isa.Program, r: PcuRegs, p: Plain, s: Isa.Machine, e: Env, next: Addr)
    requires p.Leaving? && Premise(g, r, p, s, e, next)
    ensures Kept(g, r, p, s, e, next)
  {
    if r.slots.kill || r.slots.irq0 {
      StepLeavingKilled(g, r, p, s, e, next);
    } else if LinkDue(r.pipe) {
      StepLeavingLink(g, r, p, s, e, next);
    } else {
      StepLeavingSlot(g, r, p, s, e, next);
    }
  }

  /** The control outputs of the running phase, in the terms of the instruction set. */
  lemma ControlAt(r: PcuRegs, p: Plain, s: Isa.Machine, e: Env)
    requires p.At? && Rel(r, p, s) && Isa.Legal(s, ActOf(r, p, e), e)
    ensures var b, ctl := Isa.BranchOf(s.last, e.predBit, s.retpc, s.retipc), ControlOf(r, e, PcOf(p));
      if AtLoopEnd(s.loop, s.pc) then
        ctl == IDLE.(jump := Some(s.loop.begin)) && b.NoBranch?
      else if b.Branch? then
        && ctl.jump == Some(b.target) && !ctl.irqAck
        && b.slots == (if ctl.reqSlots > 2 then 2 else ctl.reqSlots)
      else
        && ctl.reqSlots == 2
        && (if ctl.irqAck then ctl.jump == Some(4) && e.irq && s.irqEnable else ctl.jump == None)
    ensures s.last.itype == CallAbs && s.last.Executes(e.predBit)
            <==> (var b := Isa.BranchOf(s.last, e.predBit, s.retpc, s.retipc); b.Branch? && b.link)
  {
  }

  lemma StepLoopEnd(g: Isa.Program, r: PcuRegs, p: Plain, s: Isa.Machine, e: Env, next: Addr)
    requires p.At? && Premise(g, r, p, s, e, next)
    requires AtLoopEnd(s.loop, s.pc)
    ensures Kept(g, r, p, s, e, next)
  {
    ControlAt(r, p, s, e);
  }

  lemma StepBranch(g: Isa.Program, r: PcuRegs, p: Plain, s: Isa.Machine, e: Env, next: Addr)
    requires p.At? && Premise(g, r, p, s, e, next)
    requires Isa.BranchOf(s.last, e.predBit, s.retpc, s.retipc).Branch?
    ensures Kept(g, r, p, s, e, next)
  {
    ControlAt(r, p, s, e);
  }

  lemma StepInterrupt(g: Isa.Program, r: PcuRegs, p: Plain, s: Isa.Machine, e: Env, next: Addr)
    requires p.At? && Premise(g, r, p, s, e, next)
    requires ControlOf(r, e, PcOf(p)).irqAck
    ensures Kept(g, r, p, s, e, next)
  {
    ControlAt(r, p, s, e);
  }

  lemma StepOn(g: Isa.Program, r: PcuRegs, p: Plain, s: Isa.Machine, e: Env, next: Addr)
    requires p.At? && Premise(g, r, p, s, e, next)
    requires ControlOf(r, e, PcOf(p)).jump.None?
    ensures Kept(g, r, p, s, e, next)
  {
    ControlAt(r, p, s, e);
  }

  /** A packet let through is the one the machine has next; interrupts are taken between packets. */
  lemma ExecutesThere(r: PcuRegs, p: Plain, s: Isa.Machine, e: Env)
    requires Shows(p) && Rel(r, p, s) && e.clkEn && Isa.Legal(s, ActOf(r, p, e), e)
    ensures ActOf(r, p, e).Packet? ==> Isa.Resolve(s, e.predBit).pc == PcOf(p)
    ensures Isa.Precise(s, ActOf(r, p, e), e)
  {
    if p.At? {
      ControlAt(r, p, s, e);
    } else {
      ControlLeaving(r, p, s, e);
    }
  }

  lemma StepKeeps(g: Isa.Program, r: PcuRegs, p: Plain, s: Isa.Machine, e: Env, next: Addr)
    requires Premise(g, r, p, s, e, next)
    ensures Kept(g, r, p, s, e, next)
  {
    match p
    case Starting(_) => StepStarting(g, r, p, s, e, next);
    case Waiting(_) => StepWaiting(g, r, p, s, e, next);
    case Leaving(_, _) => StepLeaving(g, r, p, s, e, next);
    case At(_) =>
      ControlAt(r, p, s, e);
      if AtLoopEnd(s.loop, s.pc) {
        StepLoopEnd(g, r, p, s, e, next);
      } else if Isa.BranchOf(s.last, e.predBit, s.retpc, s.retipc).Branch? {
        StepBranch(g, r, p, s, e, next);
      } else if ControlOf(r, e, PcOf(p)).irqAck {
        StepInterrupt(g, r, p, s, e, next);
      } else {
        StepOn(g, r, p, s, e, next);
      }
  }

  // ---------------------------------------------------- the whole core

  /** The program an image spells. */
  function ProgramOf(m: Image): Isa.Program {
    (pc: Addr) => Isa.Fetched(BundleAt(m, pc).len, Dispatch(BundleAt(m, pc), true))
  }

  /** The enabled cycles of a run, with what each of them contributes. */
  function Schedule(m: Image, c: Core.State, es: seq<Env>): seq<Isa.Cycle>
    requires WellTyped(c.fetch)
    decreases |es|
  {
    if es == [] then []
    else
      var e := es[|es| - 1];
      var before := Core.Run(m, c, es[..|es| - 1]);
      Schedule(m, c, es[..|es| - 1]) + (if e.clkEn then [Isa.Cycle(CoreAct(before, e), e)] else [])
  }

  function CoreAct(c: Core.State, e: Env): Isa.Act {
    var ctl := Core.ControlNow(c, e);
    if !Issues(c.fetch) then Isa.Bubble
    else if ctl.irqAck then Isa.Interrupt
    else if Invalidates(c.pcu, ctl) then Isa.Nothing
    else Isa.Packet
  }

  ghost predicate CoreRel(m: Image, c: Core.State, p: Plain, s: Isa.Machine) {
    Refines(m, c.fetch, p) && Rel(c.pcu, p, s)
  }

  /** One enabled cycle of the core: the plain fetcher and the control unit side by side. */
  lemma CoreMoves(m: Image, c: Core.State, p: Plain, e: Env)
    requires Refines(m, c.fetch, p) && e.clkEn
    ensures var t, i := Core.Step(m, c, e), Input(true, ControlOf(c.pcu, e, PcOf(p)).jump);
      && Refines(m, t.fetch, PlainStep(m, p, i))
      && t.pcu == Pcu.Step(c.pcu, e, Dispatched(ProgramOf(m), c.pcu, p, e), PcOf(p), NextPc(c.fetch))
    ensures c.fetch.pc == PcOf(p)
    ensures Core.Executed(c, e) <==> Shows(p) && !Invalidates(c.pcu, ControlOf(c.pcu, e, PcOf(p)))
    ensures Shows(p) ==> NextPc(c.fetch) == After(m, PcOf(p))
  {
    StepRefines(m, c.fetch, p, Input(e.clkEn, Core.ControlNow(c, e).jump));
    if Shows(p) {
      MuxShowsWords(m, c.fetch);
    }
  }

  /** One enabled cycle of the core is one step of the instruction-set machine. */
  lemma CoreStep(m: Image, c: Core.State, p: Plain, s: Isa.Machine, e: Env) returns (p': Plain)
    requires CoreRel(m, c, p, s) && e.clkEn && Isa.Legal(s, CoreAct(c, e), e)
    ensures CoreRel(m, Core.Step(m, c, e), p', Isa.Step(ProgramOf(m), s, CoreAct(c, e), e))
    ensures Core.Executed(c, e) ==> c.fetch.pc == Isa.Resolve(s, e.predBit).pc
    ensures Core.Executed(c, e) <==> CoreAct(c, e).Packet?
    ensures Isa.Precise(s, CoreAct(c, e), e)
    ensures Core.ControlNow(c, e).irqAck ==> c.fetch.fetchState == Running
  {
    var r, g, next := c.pcu, ProgramOf(m), NextPc(c.fetch);
    var i := Input(e.clkEn, Core.ControlNow(c, e).jump);
    StepRefines(m, c.fetch, p, i);
    p' := PlainStep(m, p, i);
    if Shows(p) {
      MuxShowsWords(m, c.fetch);
      assert next == After(m, PcOf(p));
      StepKeeps(g, r, p, s, e, next);
      ExecutesThere(r, p, s, e);
    } else {
      StepKeeps(g, r, p, s, e, next);
    }
  }

  ghost predicate LegalProgramRun(m: Image, power: FetchRegs, es: seq<Env>) {
    Isa.LegalRun(ProgramOf(m), Isa.Start, Schedule(m, Core.Reset(power), es))
  }

  /** The state the instruction-set machine reaches alongside the core. */
  function MachineAfter(m: Image, power: FetchRegs, es: seq<Env>): Isa.Machine {
    Isa.Run(ProgramOf(m), Isa.Start, Schedule(m, Core.Reset(power), es))
  }

  lemma LastCycle(cs: seq<Isa.Cycle>, c: Isa.Cycle)
    ensures (cs + [c])[..|cs + [c]| - 1] == cs
  {
  }

  /** Over every run from reset, with any stalls, predicates, special-register writes and interrupt
      requests that keep the programming rules, the core executes exactly the packets the
      instruction-set machine executes, in order, and takes every interrupt between packets. */
  lemma {:induction false} CoreRefinesIsa(m: Image, power: FetchRegs, es: seq<Env>) returns (p: Plain)
    requires LegalProgramRun(m, power, es)
    ensures CoreRel(m, Core.Run(m, Core.Reset(power), es), p, MachineAfter(m, power, es))
    ensures Core.Trace(m, Core.Reset(power), es)
         == Isa.Trace(ProgramOf(m), Isa.Start, Schedule(m, Core.Reset(power), es))
    ensures Isa.PreciseRun(ProgramOf(m), Isa.Start, Schedule(m, Core.Reset(power), es))
  {
    var c0 := Core.Reset(power);
    if es == [] {
      ResetRefines(m, power);
      p := Starting(2);
    } else {
      var before, e := es[..|es| - 1], es[|es| - 1];
      var c := Core.Run(m, c0, before);
      if e.clkEn {
        var cycle := Isa.Cycle(CoreAct(c, e), e);
        LastCycle(Schedule(m, c0, before), cycle);
        var q := CoreRefinesIsa(m, power, before);
        p := CoreStep(m, c, q, MachineAfter(m, power, before), e);
      } else {
        assert Schedule(m, c0, es) == Schedule(m, c0, before);
        p := CoreRefinesIsa(m, power, before);
      }
    }
  }

  /** Only an executed packet counts a turn: a suppressed one, or none, leaves the loop counter alone, and
      all of the loop registers unless a `bkrep` is being acted on. */
  lemma SuppressedNeverCounts(m: Image, c: Core.State, p: Plain, s: Isa.Machine, e: Env)
    requires CoreRel(m, c, p, s) && e.clkEn && Isa.Legal(s, CoreAct(c, e), e) && !e.write.WriteLoopCount?
    ensures var was, now := c.pcu.loop, Core.Step(m, c, e).pcu.loop;
      && (now.count != was.count ==> Core.Executed(c, e) && AtLoopEnd(was, c.fetch.pc) && now.count == was.count - 1)
      && (now.count == was.count && !c.pcu.pipe.inst0.IsBkrep() ==> now == was)
      && (now.count != was.count ==> now == was.(count := now.count))
  {
    var q := CoreStep(m, c, p, s, e);
  }

  /** Over any legal run: the loop counter goes down only with an executed packet at the loop's end. */
  lemma CountsOnlyExecuted(m: Image, power: FetchRegs, es: seq<Env>, e: Env)
    requires LegalProgramRun(m, power, es + [e]) && e.clkEn && !e.write.WriteLoopCount?
    ensures var c := Core.Run(m, Core.Reset(power), es);
      Core.Step(m, c, e).pcu.loop.count != c.pcu.loop.count ==>
        Core.Executed(c, e) && AtLoopEnd(c.pcu.loop, c.fetch.pc)
  {
    var c, c0 := Core.Run(m, Core.Reset(power), es), Core.Reset(power);
    assert (es + [e])[..|es + [e]| - 1] == es;
    LastCycle(Schedule(m, c0, es), Isa.Cycle(CoreAct(c, e), e));
    var p := CoreRefinesIsa(m, power, es);
    SuppressedNeverCounts(m, c, p, MachineAfter(m, power, es), e);
  }

  /** What an acknowledgement finds and leaves: the fetcher running, the return address at the first
      suppressed packet, no turn counted. */
  ghost predicate Acknowledged(m: Image, c: Core.State, s: Isa.Machine, e: Env)
    requires WellTyped(c.fetch)
  {
    && c.fetch.fetchState == Running
    && c.pcu.loop == s.loop && Core.Step(m, c, e).pcu.loop == Isa.LoopAfterEntry(s, e)
    && Core.Step(m, c, e).pcu.retipc == (if e.write.WriteRetipc? then e.write.value else s.pc)
    && (s.last.IsBkrep() ==> !s.last.Executes(e.predBit))
  }

  lemma AcknowledgeWhileRunning(m: Image, c: Core.State, p: Plain, s: Isa.Machine, e: Env)
    requires CoreRel(m, c, p, s) && e.clkEn && Core.ControlNow(c, e).irqAck
    requires Isa.Legal(s, CoreAct(c, e), e)
    ensures Acknowledged(m, c, s, e)
  {
    var q := CoreStep(m, c, p, s, e);
    AcknowledgedRegs(c.pcu, p, s, e, NOP, c.fetch.pc, NextPc(c.fetch));
  }

  lemma AcknowledgedRegs(r: PcuRegs, p: Plain, s: Isa.Machine, e: Env, inst: Inst, pc: Addr, next: Addr)
    requires Rel(r, p, s) && p == At(pc) && e.clkEn && ControlOf(r, e, pc).irqAck
    ensures r.loop == s.loop && NextLoop(r.loop, r.pipe.inst0, e, true, pc) == Isa.LoopAfterEntry(s, e)
    ensures s.last.IsBkrep() ==> !s.last.Executes(e.predBit)
  {
  }

  /** An interrupt is acknowledged only in the fetcher's running state, after any legal run; the return
      address is the first suppressed packet, which is not counted as a turn of a loop. */
  lemma AcknowledgeOnlyRunning(m: Image, power: FetchRegs, es: seq<Env>, e: Env)
    requires LegalProgramRun(m, power, es + [e]) && e.clkEn
    ensures var c := Core.Run(m, Core.Reset(power), es);
      Core.ControlNow(c, e).irqAck ==> Acknowledged(m, c, MachineAfter(m, power, es), e)
  {
    var c, c0 := Core.Run(m, Core.Reset(power), es), Core.Reset(power);
    assert (es + [e])[..|es + [e]| - 1] == es;
    LastCycle(Schedule(m, c0, es), Isa.Cycle(CoreAct(c, e), e));
    var p := CoreRefinesIsa(m, power, es);
    if Core.ControlNow(c, e).irqAck {
      AcknowledgeWhileRunning(m, c, p, MachineAfter(m, power, es), e);
    }
  }

  /** The unit does not look at the predicate of a `bkrep`: here one whose predicate fails is overtaken by
      an interrupt, and sets the loop registers in the acknowledging cycle all the same. */
  lemma SkippedBkrepSetsLoop(inst: Inst, next: Addr)
    ensures var bkrep := Inst(Bkrep, true, true, false, 40, 0);
      var r := Pcu.Reset().(pipe := Pcu.Reset().pipe.(inst0 := bkrep), irqEnable := true);
      var e := Env(true, false, NoWrite, true);
      && !bkrep.Executes(e.predBit) && ControlOf(r, e, 8).irqAck
      && Pcu.Step(r, e, inst, 8, next).loop == Loop(8, 40, 0)
  {
  }

  /** Whatever its predicate says, a `bkrep` in the pipe sets begin and end. */
  lemma BkrepIgnoresPredicate(r: PcuRegs, e: Env, inst: Inst, pc: Addr, next: Addr)
    requires r.pipe.inst0.IsBkrep() && e.clkEn
    ensures Pcu.Step(r, e, inst, pc, next).loop == Loop(pc, r.pipe.inst0.imm, r.loop.count)
  {
  }
}

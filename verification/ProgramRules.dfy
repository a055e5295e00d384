/** Rules a programmer can check in the source that make every run of the core a legal one. */
module ProgramRules {
  import opened Words
  import opened Vliwfetch
  import opened Pcu
  import Core
  import Isa
  import opened CoreRefinement

  // ---------------------------------------------------------- the static rules

  predicate CanBranch(w: Inst) {
    if w.Enc32() then w.itype == CallAbs || w.itype == JumpAbs else w.itype == Rets || w.itype == Reti
  }

  /** What may sit in a delay slot. */
  predicate Calm(w: Inst) {
    !CanBranch(w) && !w.IsBkrep()
  }

  /** The delay slots there are, of those that can be encoded. */
  function SlotCount(w: Inst): nat {
    if w.slots > 2 then 2 else w.slots
  }

  function Following(g: Isa.Program, a: Addr): Addr {
    Plus(a, g(a).len)
  }

  /** The next `k` packets from `a` may sit in delay slots; `ends` are the end labels of loops. */
  predicate CalmFor(g: Isa.Program, ends: set<Addr>, a: Addr, k: nat)
    decreases k
  {
    k == 0 || (a !in ends && Calm(g(a).inst) && CalmFor(g, ends, Following(g, a), k - 1))
  }

  /** The rule for the packet at `a`. No branch or call through a register. In delay slots nothing but calm
      packets, and no end label; none right after a branch or a loop instruction either. A loop's end
      label is one of `ends`, and the two last packets of its body are calm. */
  predicate Ruled(g: Isa.Program, ends: set<Addr>, a: Addr) {
    var w, next := g(a).inst, Following(g, a);
    && !Isa.ThroughRegister(w)
    && (CanBranch(w) ==> CalmFor(g, ends, next, SlotCount(w)))
    && (CanBranch(w) || w.IsBkrep() ==> next !in ends)
    && (w.IsBkrep() ==> w.imm in ends)
    && (a in ends ==> Calm(w) && CalmFor(g, ends, next, 1))
  }

  /** What is asked of the data path in one cycle: no write to a register that the unit itself updates
      in the cycle, and no passing through address zero, where no loop ends, with the counter running. */
  predicate DataRule(s: Isa.Machine, c: Isa.Cycle) {
    var b, r, w := Isa.BranchOf(s.last, c.env.predBit, s.retpc, s.retipc), Isa.Resolve(s, c.env.predBit), c.env.write;
    && (w.WriteRetpc? && b.Branch? && b.link ==> b.slots == 2)
    && (w.WriteLoopCount? ==> !s.last.IsBkrep() && !(c.act.Packet? && AtLoopEnd(r.loop, r.pc)))
    && (s.loop.count != 0 ==> s.pc != 0 && r.pc != 0)
  }

  /** All loops end at addresses where the fetcher's lines start. */
  ghost predicate AlignedEnds(ends: set<Addr>) {
    forall a <- ends :: a % 4 == 0
  }

  /** The data path's part in a cycle; and unless all end labels are aligned, no jump to one that is not. */
  ghost predicate DataStep(ends: set<Addr>, s: Isa.Machine, c: Isa.Cycle) {
    && DataRule(s, c)
    && (AlignedEnds(ends) || (c.act.Bubble? && AtLoopEnd(s.loop, s.pc) ==> s.pc % 4 == 0))
  }

  ghost predicate DataRun(g: Isa.Program, ends: set<Addr>, s: Isa.Machine, cs: seq<Isa.Cycle>) {
    cs == [] || (
      && DataRun(g, ends, s, cs[..|cs| - 1])
      && DataStep(ends, Isa.Run(g, s, cs[..|cs| - 1]), cs[|cs| - 1]))
  }

  /** The rules, along a run: they hold of the packets it executes. */
  ghost predicate RuledStep(g: Isa.Program, ends: set<Addr>, s: Isa.Machine, c: Isa.Cycle) {
    DataStep(ends, s, c) && (c.act.Packet? ==> Ruled(g, ends, Isa.Resolve(s, c.env.predBit).pc))
  }

  ghost predicate RuledRun(g: Isa.Program, ends: set<Addr>, s: Isa.Machine, cs: seq<Isa.Cycle>) {
    cs == [] || (
      && RuledRun(g, ends, s, cs[..|cs| - 1])
      && RuledStep(g, ends, Isa.Run(g, s, cs[..|cs| - 1]), cs[|cs| - 1]))
  }

  // ------------------------------------------------------------ the invariant

  /** The delay slots still to come are calm, and no loop ends among them. */
  ghost predicate Orderly(g: Isa.Program, ends: set<Addr>, s: Isa.Machine) {
    && (s.loop.end in ends || s.loop.end == 0)
    && !Isa.ThroughRegister(s.last)
    && (s.lastInSlot ==> Calm(s.last))
    && match s.pending
       case NoPending =>
         && (CanBranch(s.last) ==> CalmFor(g, ends, s.pc, SlotCount(s.last)))
         && (CanBranch(s.last) || s.last.IsBkrep() ==> s.pc !in ends)
         && (s.last.IsBkrep() ==> s.last.imm in ends)
       case Pending(_, slots, _) =>
         slots > 0 && Calm(s.last) && CalmFor(g, ends, s.pc, slots)
  }

  lemma OrderlyLegal(g: Isa.Program, ends: set<Addr>, s: Isa.Machine, c: Isa.Cycle)
    requires Orderly(g, ends, s) && DataRule(s, c)
    requires c.act.Bubble? ==> !AtLoopEnd(s.loop, s.pc)
    ensures Isa.Legal(s, c.act, c.env)
  {
  }

  lemma ResolveOrderly(g: Isa.Program, ends: set<Addr>, s: Isa.Machine, predBit: bool)
    requires Orderly(g, ends, s)
    ensures Orderly(g, ends, Isa.Resolve(s, predBit)) && Isa.Resolve(s, predBit).last == NOP
  {
  }

  lemma ExecuteOrderly(g: Isa.Program, ends: set<Addr>, s: Isa.Machine)
    requires Orderly(g, ends, s) && s.last == NOP && Ruled(g, ends, s.pc)
    requires s.loop.count != 0 ==> s.pc != 0
    ensures Orderly(g, ends, Isa.Execute(g, s))
  {
  }

  lemma MiddleOrderly(g: Isa.Program, ends: set<Addr>, s: Isa.Machine, act: Isa.Act)
    requires Orderly(g, ends, s) && s.last == NOP
    requires act.Packet? ==> Ruled(g, ends, s.pc)
    requires s.loop.count != 0 ==> s.pc != 0
    requires act.Interrupt? ==> s.pending.NoPending?
    ensures Orderly(g, ends, Isa.Middle(g, s, act))
  {
    if act.Packet? {
      ExecuteOrderly(g, ends, s);
    }
  }

  lemma WriteOrderly(g: Isa.Program, ends: set<Addr>, s: Isa.Machine, w: SpecWrite)
    requires Orderly(g, ends, s)
    ensures Orderly(g, ends, Isa.Write(s, w))
  {
  }

  lemma ResolveBetween(s: Isa.Machine, c: Isa.Cycle)
    ensures Isa.Resolve(s, c.env.predBit).loop.count == s.loop.count
    ensures c.act.Interrupt? && Isa.Precise(s, c.act, c.env) ==> Isa.Resolve(s, c.env.predBit).pending.NoPending?
  {
  }

  lemma StepOrderly(g: Isa.Program, ends: set<Addr>, s: Isa.Machine, c: Isa.Cycle)
    requires Orderly(g, ends, s) && RuledStep(g, ends, s, c) && Isa.Precise(s, c.act, c.env)
    ensures Orderly(g, ends, Isa.Step(g, s, c.act, c.env))
  {
    var r := Isa.Resolve(s, c.env.predBit);
    ResolveOrderly(g, ends, s, c.env.predBit);
    ResolveBetween(s, c);
    MiddleOrderly(g, ends, r, c.act);
    WriteOrderly(g, ends, Isa.Middle(g, r, c.act), c.env.write);
  }

  // --------------------------------------------------------- runs of the core

  /** Loops whose ends are aligned are met at aligned addresses, with no rule on runs. */
  lemma AlignedEndsMet(g: Isa.Program, ends: set<Addr>, s: Isa.Machine)
    requires Orderly(g, ends, s) && AlignedEnds(ends) && AtLoopEnd(s.loop, s.pc)
    ensures s.pc % 4 == 0
  {
  }

  /** The fetcher waits at unaligned targets only, and at address zero when it starts. */
  lemma BubbleUnaligned(m: Image, ends: set<Addr>, c: Core.State, p: Plain, s: Isa.Machine, e: Env)
    requires CoreRel(m, c, p, s) && Orderly(ProgramOf(m), ends, s)
    requires RuledStep(ProgramOf(m), ends, s, Isa.Cycle(CoreAct(c, e), e))
    ensures CoreAct(c, e).Bubble? ==> !AtLoopEnd(s.loop, s.pc)
  {
    if AlignedEnds(ends) && AtLoopEnd(s.loop, s.pc) {
      AlignedEndsMet(ProgramOf(m), ends, s);
    }
  }

  /** The rules make a run of the core legal, whatever the stalls, predicates and interrupts. */
  lemma {:induction false} RulesMakeLegal(m: Image, ends: set<Addr>, power: FetchRegs, es: seq<Env>)
    requires RuledRun(ProgramOf(m), ends, Isa.Start, Schedule(m, Core.Reset(power), es))
    ensures LegalProgramRun(m, power, es) && Orderly(ProgramOf(m), ends, MachineAfter(m, power, es))
  {
    if es != [] {
      var c0, before, e := Core.Reset(power), es[..|es| - 1], es[|es| - 1];
      var c := Core.Run(m, c0, before);
      if e.clkEn {
        var cycle, s := Isa.Cycle(CoreAct(c, e), e), MachineAfter(m, power, before);
        LastCycle(Schedule(m, c0, before), cycle);
        RulesMakeLegal(m, ends, power, before);
        var p := CoreRefinesIsa(m, power, before);
        BubbleUnaligned(m, ends, c, p, s, e);
        OrderlyLegal(ProgramOf(m), ends, s, cycle);
        var q := CoreStep(m, c, p, s, e);
        StepOrderly(ProgramOf(m), ends, s, cycle);
      } else {
        assert Schedule(m, c0, es) == Schedule(m, c0, before);
        RulesMakeLegal(m, ends, power, before);
      }
    }
  }
}

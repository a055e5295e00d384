/** The core does not stall: it executes a packet at least every seventh enabled cycle. */
module CoreProgress {
  import opened Words
  import opened Vliwfetch
  import opened Pcu
  import Core
  import Isa
  import opened CoreRefinement
  import opened CoreFlow

  /** The cycles an interrupt can take before the next packet: acknowledge, suppress, refill. */
  function Later(s: Isa.Machine): nat {
    if s.last == NOP && !s.irqEnable then 0 else 3
  }

  /** A bound on the cycles that can still pass without a packet: a branch without delay slots costs
      three, and an interrupt can follow it once. */
  function Idle(r: PcuRegs, p: Plain, s: Isa.Machine): nat {
    match p
    case Starting(left) => left + 1
    case At(_) => if s.last == NOP then Later(s) else 6
    case Leaving(_, _) => if r.slots.kill || r.slots.irq0 then 2 + Later(s) else 0
    case Waiting(_) => 1 + Later(s)
  }

  /** What the next phase can still cost. */
  function IdleAfter(g: Isa.Program, r: PcuRegs, p: Plain, s: Isa.Machine, e: Env, next: Addr): nat {
    Idle(Pcu.Step(r, e, Dispatched(g, r, p, e), PcOf(p), next),
         PlainMove(p, next, Input(true, ControlOf(r, e, PcOf(p)).jump)),
         Isa.Step(g, s, ActOf(r, p, e), e))
  }

  lemma QuietFalls(g: Isa.Program, r: PcuRegs, p: Plain, s: Isa.Machine, e: Env, next: Addr)
    requires Premise(g, r, p, s, e, next) && !p.At?
    ensures ActOf(r, p, e).Packet? || IdleAfter(g, r, p, s, e, next) < Idle(r, p, s)
  {
    if p.Leaving? {
      ControlLeaving(r, p, s, e);
    }
  }

  lemma RunningFalls(g: Isa.Program, r: PcuRegs, p: Plain, s: Isa.Machine, e: Env, next: Addr)
    requires Premise(g, r, p, s, e, next) && p.At?
    ensures ActOf(r, p, e).Packet? || IdleAfter(g, r, p, s, e, next) < Idle(r, p, s)
  {
    ControlAt(r, p, s, e);
  }

  /** One enabled cycle of the core without a packet brings the next one closer. */
  lemma CycleFalls(m: Image, c: Core.State, p: Plain, s: Isa.Machine, e: Env) returns (p': Plain)
    requires CoreRel(m, c, p, s) && e.clkEn && Isa.Legal(s, CoreAct(c, e), e)
    ensures CoreRel(m, Core.Step(m, c, e), p', Isa.Step(ProgramOf(m), s, CoreAct(c, e), e))
    ensures Core.Executed(c, e)
      || Idle(Core.Step(m, c, e).pcu, p', Isa.Step(ProgramOf(m), s, CoreAct(c, e), e)) < Idle(c.pcu, p, s)
  {
    var r, g, next := c.pcu, ProgramOf(m), NextPc(c.fetch);
    p' := CoreStep(m, c, p, s, e);
    if Shows(p) {
      MuxShowsWords(m, c.fetch);
      assert next == After(m, PcOf(p));
    }
    if p.At? {
      RunningFalls(g, r, p, s, e, next);
    } else {
      QuietFalls(g, r, p, s, e, next);
    }
  }

  /** The same for a given next state. */
  lemma CycleLeads(m: Image, c: Core.State, p: Plain, s: Isa.Machine, e: Env, c': Core.State, s': Isa.Machine)
    returns (p': Plain)
    requires CoreRel(m, c, p, s) && e.clkEn && Isa.Legal(s, CoreAct(c, e), e) && !Core.Executed(c, e)
    requires c' == Core.Step(m, c, e) && s' == Isa.Step(ProgramOf(m), s, CoreAct(c, e), e)
    ensures CoreRel(m, c', p', s') && Idle(c'.pcu, p', s') < Idle(c.pcu, p, s)
  {
    p' := CycleFalls(m, c, p, s, e);
  }

  lemma StateLast(m: Image, c: Core.State, es: seq<Env>, e: Env)
    requires WellTyped(c.fetch)
    ensures Core.Run(m, c, es + [e]) == Core.Step(m, Core.Run(m, c, es), e)
  {
    assert (es + [e])[..|es + [e]| - 1] == es;
  }

  /** The last cycle of a run without a packet. */
  lemma LastStall(m: Image, c: Core.State, s: Isa.Machine, init: seq<Env>, e: Env)
    requires WellTyped(c.fetch) && e.clkEn && Core.Trace(m, c, init + [e]) == []
    requires Isa.LegalRun(ProgramOf(m), s, Schedule(m, c, init + [e]))
    ensures var g, t, u := ProgramOf(m), Core.Run(m, c, init), Isa.Run(ProgramOf(m), s, Schedule(m, c, init));
      && Core.Trace(m, c, init) == [] && !Core.Executed(t, e)
      && Isa.LegalRun(g, s, Schedule(m, c, init)) && Isa.Legal(u, CoreAct(t, e), e)
      && Core.Run(m, c, init + [e]) == Core.Step(m, t, e)
      && Isa.Run(g, s, Schedule(m, c, init + [e])) == Isa.Step(g, u, CoreAct(t, e), e)
  {
    var g, t, cs := ProgramOf(m), Core.Run(m, c, init), Schedule(m, c, init);
    var cycle := Isa.Cycle(CoreAct(t, e), e);
    TraceLast(m, c, init, e);
    StateLast(m, c, init, e);
    ScheduleLast(m, c, init, e);
    Isa.RunLast(g, s, cs, cycle);
    Isa.RunStep(g, s, cs, cycle);
  }

  /** Where a run without a packet leads, and how much of the bound it has used up. */
  ghost predicate Stalled(m: Image, c: Core.State, p: Plain, s: Isa.Machine, es: seq<Env>, p': Plain)
    requires WellTyped(c.fetch)
  {
    var c', s' := Core.Run(m, c, es), Isa.Run(ProgramOf(m), s, Schedule(m, c, es));
    CoreRel(m, c', p', s') && Idle(c'.pcu, p', s') + |es| <= Idle(c.pcu, p, s)
  }

  lemma StallNext(m: Image, c: Core.State, p: Plain, s: Isa.Machine, init: seq<Env>, e: Env, q: Plain)
    returns (p': Plain)
    requires WellTyped(c.fetch) && e.clkEn && Stalled(m, c, p, s, init, q)
    requires Core.Trace(m, c, init + [e]) == [] && Isa.LegalRun(ProgramOf(m), s, Schedule(m, c, init + [e]))
    ensures Stalled(m, c, p, s, init + [e], p')
  {
    LastStall(m, c, s, init, e);
    p' := CycleLeads(m, Core.Run(m, c, init), q, Isa.Run(ProgramOf(m), s, Schedule(m, c, init)), e,
                     Core.Run(m, c, init + [e]), Isa.Run(ProgramOf(m), s, Schedule(m, c, init + [e])));
  }

  /** A legal run of enabled cycles without a packet. */
  ghost predicate StallRun(m: Image, c: Core.State, s: Isa.Machine, es: seq<Env>)
    requires WellTyped(c.fetch)
  {
    && Isa.LegalRun(ProgramOf(m), s, Schedule(m, c, es)) && Core.Trace(m, c, es) == []
    && forall i :: 0 <= i < |es| ==> es[i].clkEn
  }

  lemma NotStalled(m: Image, c: Core.State, p: Plain, s: Isa.Machine)
    requires CoreRel(m, c, p, s)
    ensures Stalled(m, c, p, s, [], p)
  {
  }

  lemma StallSplits(m: Image, c: Core.State, s: Isa.Machine, init: seq<Env>, e: Env)
    requires WellTyped(c.fetch) && StallRun(m, c, s, init + [e])
    ensures StallRun(m, c, s, init) && e.clkEn
  {
    assert (init + [e])[|init|] == e;
    assert forall i :: 0 <= i < |init| ==> init[i] == (init + [e])[i];
    LastStall(m, c, s, init, e);
  }

  lemma StallFrom(m: Image, c: Core.State, p: Plain, s: Isa.Machine, init: seq<Env>, e: Env, es: seq<Env>, q: Plain)
    returns (p': Plain)
    requires WellTyped(c.fetch) && es == init + [e]
    requires StallRun(m, c, s, es) && e.clkEn && Stalled(m, c, p, s, init, q)
    ensures Stalled(m, c, p, s, es, p')
  {
    p' := StallNext(m, c, p, s, init, e, q);
  }

  /** Enabled cycles without a packet use up the bound. */
  lemma {:induction false} StallsFall(
      m: Image, c: Core.State, p: Plain, s: Isa.Machine, es: seq<Env>) returns (p': Plain)
    requires CoreRel(m, c, p, s) && StallRun(m, c, s, es)
    ensures Stalled(m, c, p, s, es, p')
    decreases |es|
  {
    if es == [] {
      p' := p;
      NotStalled(m, c, p, s);
    } else {
      var init, e := es[..|es| - 1], es[|es| - 1];
      assert es == init + [e];
      StallSplits(m, c, s, init, e);
      var q := StallsFall(m, c, p, s, init);
      p' := StallFrom(m, c, p, s, init, e, es, q);
    }
  }

  lemma IdleBound(m: Image, c: Core.State, p: Plain, s: Isa.Machine)
    requires CoreRel(m, c, p, s)
    ensures Idle(c.pcu, p, s) <= 6
  {
  }

  /** In every legal run from reset, seven enabled cycles in a row execute a packet, whatever branches
      and interrupts do. */
  lemma CoreProgresses(m: Image, power: FetchRegs, prefix: seq<Env>, es: seq<Env>)
    requires LegalProgramRun(m, power, prefix + es)
    requires |es| == 7 && forall i :: 0 <= i < |es| ==> es[i].clkEn
    ensures RestTrace(m, power, prefix, es) != []
  {
    var s, cs := MachineAfter(m, power, prefix), Schedule(m, Core.Run(m, Core.Reset(power), prefix), es);
    RunAppend(m, Core.Reset(power), prefix, es);
    Isa.Append(ProgramOf(m), Isa.Start, Schedule(m, Core.Reset(power), prefix), cs);
    var c := Core.Run(m, Core.Reset(power), prefix);
    var p := CoreRefinesIsa(m, power, prefix);
    IdleBound(m, c, p, s);
    if RestTrace(m, power, prefix, es) == [] {
      var q := StallsFall(m, c, p, s, es);
    }
  }

  // ------------------------------------------------------------- interrupts

  /** A cycle in which nothing comes before a request: no loop end, and nothing in the pipe that acts or
      that forbids interrupts. */
  predicate Free(c: Core.State, e: Env) {
    var w := c.pcu.pipe.inst0;
    && e.clkEn && e.irq && !AtLoopEnd(c.pcu.loop, c.fetch.pc)
    && w.itype != Dint && (w.Executes(e.predBit) ==> w.itype == Nil)
  }

  /** The request is acknowledged, and the fetcher is sent to address 4. */
  predicate Taken(c: Core.State, e: Env) {
    Core.ControlNow(c, e).irqAck && Core.ControlNow(c, e).jump == Some(4)
  }

  /** With interrupts enabled a request is not lost: it is taken in the first of three free cycles in a row
      that is not in the shadow of a jump, which one of them is. */
  lemma InterruptTaken(m: Image, c: Core.State, d: Env, e: Env, f: Env)
    requires WellTyped(c.fetch) && c.pcu.irqEnable && Free(c, d)
    requires Free(Core.Step(m, c, d), e) && Free(Core.Step(m, Core.Step(m, c, d), e), f)
    ensures Taken(c, d) <==> !c.pcu.slots.dslot0
    ensures !Taken(c, d) ==> (Taken(Core.Step(m, c, d), e) <==> !c.pcu.slots.dslot1)
    ensures !Taken(c, d) && !Taken(Core.Step(m, c, d), e) ==> Taken(Core.Step(m, Core.Step(m, c, d), e), f)
  {
  }
}

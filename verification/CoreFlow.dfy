/** The whole-run control-flow facts, of the pipelined core itself: carried over from the
    instruction-set machine by the refinement. `power` is what the memory output register holds
    when the machine is switched on; `prefix` is any run from reset, `es` the run that follows it. */
module CoreFlow {
  import opened Words
  import opened Vliwfetch
  import Pcu
  import Isa
  import Core
  import opened CoreRefinement
  import opened IsaFlow

  lemma {:induction false} StateAppend(m: Image, c: Core.State, a: seq<Pcu.Env>, b: seq<Pcu.Env>)
    requires WellTyped(c.fetch)
    ensures Core.Run(m, c, a + b) == Core.Run(m, Core.Run(m, c, a), b)
  {
    if b == [] {
      assert a + b == a;
    } else {
      StateAppend(m, c, a, b[..|b| - 1]);
      assert (a + b)[..|a + b| - 1] == a + b[..|b| - 1];
    }
  }

  /** The packet that one more cycle executes. */
  function OnePacket(c: Core.State, e: Pcu.Env): seq<Addr> {
    if Core.Executed(c, e) then [c.fetch.pc] else []
  }

  lemma TraceLast(m: Image, c: Core.State, es: seq<Pcu.Env>, e: Pcu.Env)
    requires WellTyped(c.fetch)
    ensures Core.Trace(m, c, es + [e]) == Core.Trace(m, c, es) + OnePacket(Core.Run(m, c, es), e)
  {
    assert (es + [e])[..|es + [e]| - 1] == es;
  }

  lemma {:induction false} TraceAppend(m: Image, c: Core.State, a: seq<Pcu.Env>, b: seq<Pcu.Env>)
    requires WellTyped(c.fetch)
    ensures Core.Trace(m, c, a + b) == Core.Trace(m, c, a) + Core.Trace(m, Core.Run(m, c, a), b)
  {
    if b == [] {
      assert a + b == a;
    } else {
      var init, e := b[..|b| - 1], b[|b| - 1];
      TraceAppend(m, c, a, init);
      StateAppend(m, c, a, init);
      var t := Core.Run(m, c, a);
      TraceLast(m, c, a + init, e);
      TraceLast(m, t, init, e);
      Assoc(Core.Trace(m, c, a), Core.Trace(m, t, init), OnePacket(Core.Run(m, t, init), e));
      Assoc(a, init, [e]);
      assert init + [e] == b;
    }
  }

  /** What one more cycle contributes to the machine. */
  function OneCycle(c: Core.State, e: Pcu.Env): seq<Isa.Cycle> {
    if e.clkEn then [Isa.Cycle(CoreAct(c, e), e)] else []
  }

  lemma ScheduleLast(m: Image, c: Core.State, es: seq<Pcu.Env>, e: Pcu.Env)
    requires WellTyped(c.fetch)
    ensures Schedule(m, c, es + [e]) == Schedule(m, c, es) + OneCycle(Core.Run(m, c, es), e)
  {
    assert (es + [e])[..|es + [e]| - 1] == es;
  }

  lemma {:induction false} ScheduleAppend(m: Image, c: Core.State, a: seq<Pcu.Env>, b: seq<Pcu.Env>)
    requires WellTyped(c.fetch)
    ensures Schedule(m, c, a + b) == Schedule(m, c, a) + Schedule(m, Core.Run(m, c, a), b)
  {
    if b == [] {
      assert a + b == a;
    } else {
      var init, e := b[..|b| - 1], b[|b| - 1];
      ScheduleAppend(m, c, a, init);
      StateAppend(m, c, a, init);
      var t := Core.Run(m, c, a);
      ScheduleLast(m, c, a + init, e);
      ScheduleLast(m, t, init, e);
      Assoc(Schedule(m, c, a), Schedule(m, t, init), OneCycle(Core.Run(m, t, init), e));
      Assoc(a, init, [e]);
      assert init + [e] == b;
    }
  }

  lemma RunAppend(m: Image, c: Core.State, a: seq<Pcu.Env>, b: seq<Pcu.Env>)
    requires WellTyped(c.fetch)
    ensures Core.Run(m, c, a + b) == Core.Run(m, Core.Run(m, c, a), b)
    ensures Core.Trace(m, c, a + b) == Core.Trace(m, c, a) + Core.Trace(m, Core.Run(m, c, a), b)
    ensures Schedule(m, c, a + b) == Schedule(m, c, a) + Schedule(m, Core.Run(m, c, a), b)
  {
    StateAppend(m, c, a, b);
    TraceAppend(m, c, a, b);
    ScheduleAppend(m, c, a, b);
  }

  /** A run of the core after a prefix, seen beside the instruction-set machine: `s` is where the
      machine stands after the prefix and `cs` what the rest of the run contributes to it. */
  ghost predicate Beside(m: Image, power: FetchRegs, prefix: seq<Pcu.Env>, es: seq<Pcu.Env>,
                         s: Isa.Machine, cs: seq<Isa.Cycle>) {
    && LegalProgramRun(m, power, prefix + es)
    && s == MachineAfter(m, power, prefix)
    && cs == Schedule(m, Core.Run(m, Core.Reset(power), prefix), es)
  }

  function RestTrace(m: Image, power: FetchRegs, prefix: seq<Pcu.Env>, es: seq<Pcu.Env>): seq<Addr> {
    Core.Trace(m, Core.Run(m, Core.Reset(power), prefix), es)
  }

  /** The packets the core executes after a prefix are the machine's. */
  lemma {:induction false} RestOfTrace(m: Image, power: FetchRegs, prefix: seq<Pcu.Env>, es: seq<Pcu.Env>,
                                       s: Isa.Machine, cs: seq<Isa.Cycle>)
    requires Beside(m, power, prefix, es, s, cs)
    ensures Isa.LegalRun(ProgramOf(m), s, cs) && Isa.PreciseRun(ProgramOf(m), s, cs)
    ensures RestTrace(m, power, prefix, es) == Isa.Trace(ProgramOf(m), s, cs)
    ensures MachineAfter(m, power, prefix + es) == Isa.Run(ProgramOf(m), s, cs)
  {
    var c0, g := Core.Reset(power), ProgramOf(m);
    var cs0 := Schedule(m, c0, prefix);
    RunAppend(m, c0, prefix, es);
    Isa.Append(g, Isa.Start, cs0, cs);
    var p := CoreRefinesIsa(m, power, prefix + es);
    PreciseAppend(g, Isa.Start, cs0, cs);
    var q := CoreRefinesIsa(m, power, prefix);
    SameTail(Core.Trace(m, c0, prefix), RestTrace(m, power, prefix, es), Isa.Trace(g, s, cs));
  }

  lemma SameTail(x: seq<Addr>, y: seq<Addr>, z: seq<Addr>)
    requires x + y == x + z
    ensures y == z
  {
    assert y == (x + y)[|x|..] && z == (x + z)[|x|..];
  }

  /** What the core shows of the machine beside it between redirections. */
  ghost predicate Shown(c: Core.State, s: Isa.Machine) {
    && c.pcu.loop == s.loop && c.pcu.retipc == s.retipc && c.pcu.irqEnable == s.irqEnable
    && (c.fetch.fetchState == Running ==> c.fetch.pc == s.pc && c.pcu.retpc == s.retpc && s.pending.NoPending?)
  }

  lemma RelShows(m: Image, c: Core.State, p: Plain, s: Isa.Machine)
    requires CoreRel(m, c, p, s)
    ensures Shown(c, s)
  {
  }

  lemma CoreShows(m: Image, power: FetchRegs, es: seq<Pcu.Env>)
    requires LegalProgramRun(m, power, es)
    ensures Shown(Core.Run(m, Core.Reset(power), es), MachineAfter(m, power, es))
  {
    var p := CoreRefinesIsa(m, power, es);
    RelShows(m, Core.Run(m, Core.Reset(power), es), p, MachineAfter(m, power, es));
  }

  /** Delay slots: after a taken branch, call or return with k slots the core executes exactly the
      next k packets, whatever the program writes meanwhile; a call links to the first packet it leaves
      out, and the program's writes to the return address come on top. */
  lemma {:induction false} CoreDelaySlots(m: Image, power: FetchRegs, prefix: seq<Pcu.Env>, es: seq<Pcu.Env>,
                                          s: Isa.Machine, cs: seq<Isa.Cycle>)
    requires Beside(m, power, prefix, es, s, cs)
    requires cs != [] && s.pending.NoPending? && FirstBranch(s, cs).Branch? && NoInterrupt(cs)
    requires |RestTrace(m, power, prefix, es)| == FirstBranch(s, cs).slots
    ensures var g, b, t := ProgramOf(m), FirstBranch(s, cs), MachineAfter(m, power, prefix + es);
      && RestTrace(m, power, prefix, es) == Straight(g, s.pc, b.slots)
      && t.pc == b.target && t.retpc == RetpcAfter(g, s, b, cs)
      && (NoRetpcWrite(cs) ==> t.retpc == if b.link then Nth(g, s.pc, b.slots) else s.retpc)
  {
    RestOfTrace(m, power, prefix, es, s, cs);
    DelaySlots(ProgramOf(m), s, cs);
  }

  /** Call and return: whatever the callee does, the core goes on at the return address as the callee left
      it; that is the first packet the call left out if and only if the callee hands it back. */
  lemma {:induction false} CoreCallThenReturn(m: Image, power: FetchRegs, prefix: seq<Pcu.Env>, es: seq<Pcu.Env>,
                                              s: Isa.Machine, call: seq<Isa.Cycle>, callee: seq<Isa.Cycle>,
                                              ret: seq<Isa.Cycle>)
    requires Beside(m, power, prefix, es, s, call + callee + ret)
    requires Calls(ProgramOf(m), s, call)
    requires Returns(ProgramOf(m), Isa.Run(ProgramOf(m), s, call + callee), ret)
    ensures var g, k := ProgramOf(m), FirstBranch(s, call).slots;
      var t := Isa.Run(g, s, call + callee);
      && RestTrace(m, power, prefix, es)
         == Straight(g, s.pc, k) + Isa.Trace(g, Isa.Run(g, s, call), callee)
            + Straight(g, t.pc, FirstBranch(t, ret).slots)
      && MachineAfter(m, power, prefix + es).pc == t.retpc
      && Isa.Run(g, s, call).retpc == RetpcAfter(g, s, FirstBranch(s, call), call)
      && (NoRetpcWrite(call) ==> Isa.Run(g, s, call).retpc == Nth(g, s.pc, k))
  {
    RestOfTrace(m, power, prefix, es, s, call + callee + ret);
    CallThenReturn(ProgramOf(m), s, call, callee, ret);
  }

  /** Zero-overhead loops: once `bkrep` has executed with the counter at n, the core executes the
      body exactly n + 1 times, in order, whatever stalls come between, and leaves the counter 0. */
  lemma {:induction false} CoreLoopCount(m: Image, power: FetchRegs, prefix: seq<Pcu.Env>, es: seq<Pcu.Env>,
                                         s: Isa.Machine, cs: seq<Isa.Cycle>, size: nat)
    requires Beside(m, power, prefix, es, s, cs)
    requires AtLoopStart(ProgramOf(m), s, s.last.imm, size) && Undisturbed(cs)
    requires |RestTrace(m, power, prefix, es)| == size * (s.loop.count + 1)
    ensures RestTrace(m, power, prefix, es) == Times(Straight(ProgramOf(m), s.pc, size), s.loop.count + 1)
    ensures MachineAfter(m, power, prefix + es).pc == Nth(ProgramOf(m), s.pc, size)
    ensures Core.Run(m, Core.Reset(power), prefix + es).pcu.loop.count == 0
  {
    RestOfTrace(m, power, prefix, es, s, cs);
    LoopCount(ProgramOf(m), s, cs, s.last.imm, size);
    CoreShows(m, power, prefix + es);
  }

  /** The same from the write to the loop counter on: the core executes the body once more often than the
      number written. */
  lemma CoreWrittenLoop(
      m: Image, power: FetchRegs, prefix: seq<Pcu.Env>, es: seq<Pcu.Env>,
      s: Isa.Machine, head: seq<Isa.Cycle>, n: Addr, cs: seq<Isa.Cycle>, size: nat)
    requires Beside(m, power, prefix, es, s, head + cs) && SetsUp(ProgramOf(m), s, head, n) && Undisturbed(cs)
    requires var t := Isa.Run(ProgramOf(m), s, head);
      AtLoopStart(ProgramOf(m), t, t.last.imm, size) && |Isa.Trace(ProgramOf(m), t, cs)| == size * (n + 1)
    ensures var g := ProgramOf(m);
      RestTrace(m, power, prefix, es)
      == Isa.Trace(g, s, head) + Times(Straight(g, Isa.Run(g, s, head).pc, size), n + 1)
  {
    RestOfTrace(m, power, prefix, es, s, head + cs);
    WrittenLoop(ProgramOf(m), s, head, n, cs, size);
  }

  /** Precise interrupts: whatever the core does from an acknowledged interrupt to the end of a `reti`,
      the next packet afterwards is the one at the return address; it is the packet that was next when
      the interrupt was acknowledged, if and only if that is still the address. */
  lemma {:induction false} CoreInterruptThenReturn(m: Image, power: FetchRegs, prefix: seq<Pcu.Env>, es: seq<Pcu.Env>,
                                                   s: Isa.Machine, entry: Isa.Cycle, handler: seq<Isa.Cycle>,
                                                   ret: seq<Isa.Cycle>)
    requires Beside(m, power, prefix, es, s, [entry] + handler + ret)
    requires entry.act.Interrupt?
    requires ReturnsFromInterrupt(ProgramOf(m), Isa.Run(ProgramOf(m), s, [entry] + handler), ret)
    ensures MachineAfter(m, power, prefix + es).pc == Isa.Run(ProgramOf(m), s, [entry] + handler).retipc
    ensures var g := ProgramOf(m); var t := Isa.Run(g, s, [entry] + handler);
      RestTrace(m, power, prefix, es)
      == Isa.Trace(g, Isa.Run(g, s, [entry]), handler) + Straight(g, t.pc, FirstBranch(t, ret).slots)
  {
    var cs := [entry] + handler + ret;
    RestOfTrace(m, power, prefix, es, s, cs);
    PreciseFirst(ProgramOf(m), s, cs);
    InterruptThenReturn(ProgramOf(m), s, entry, handler, ret);
  }

  /** A handler that is not interrupted itself and writes no interrupt return address leads back to the
      interrupted packet, unless the program writes the register in the very cycle of the entry. */
  lemma {:induction false} CorePlainInterrupt(m: Image, power: FetchRegs, prefix: seq<Pcu.Env>, es: seq<Pcu.Env>,
                                              s: Isa.Machine, entry: Isa.Cycle, handler: seq<Isa.Cycle>,
                                              ret: seq<Isa.Cycle>)
    requires Beside(m, power, prefix, es, s, [entry] + handler + ret)
    requires entry.act.Interrupt?
    requires NoInterrupt(handler) && NoRetipcWrite(handler)
    requires ReturnsFromInterrupt(ProgramOf(m), Isa.Run(ProgramOf(m), s, [entry] + handler), ret)
    ensures MachineAfter(m, power, prefix + es).pc
      == if entry.env.write.WriteRetipc? then entry.env.write.value else s.pc
    ensures var g := ProgramOf(m); var t := Isa.Run(g, s, [entry] + handler);
      RestTrace(m, power, prefix, es)
      == Isa.Trace(g, Isa.Run(g, s, [entry]), handler) + Straight(g, t.pc, FirstBranch(t, ret).slots)
  {
    var cs := [entry] + handler + ret;
    RestOfTrace(m, power, prefix, es, s, cs);
    PreciseFirst(ProgramOf(m), s, cs);
    LegalFirst(ProgramOf(m), s, cs);
    PlainHandler(ProgramOf(m), s, entry, handler);
    CoreInterruptThenReturn(m, power, prefix, es, s, entry, handler, ret);
  }

  /** Loops under interrupts: the core executes the packets of the interleaved run, and of the loop, with
      the handlers taken out, exactly n + 1 turns in order. */
  lemma {:induction false} CoreInterruptedLoop(m: Image, power: FetchRegs, prefix: seq<Pcu.Env>, es: seq<Pcu.Env>,
                                               s: Isa.Machine, run: seq<Stretch>, size: nat)
    requires Beside(m, power, prefix, es, s, CyclesOf(run))
    requires AtLoopStart(ProgramOf(m), s, s.last.imm, size) && ProperRun(ProgramOf(m), s, run)
    requires |OwnTrace(ProgramOf(m), s, run)| == size * (s.loop.count + 1)
    ensures OwnTrace(ProgramOf(m), s, run) == Times(Straight(ProgramOf(m), s.pc, size), s.loop.count + 1)
    ensures RestTrace(m, power, prefix, es) == Isa.Trace(ProgramOf(m), s, CyclesOf(run))
    ensures MachineAfter(m, power, prefix + es).pc == Nth(ProgramOf(m), s.pc, size)
    ensures Core.Run(m, Core.Reset(power), prefix + es).pcu.loop.count == 0
  {
    RestOfTrace(m, power, prefix, es, s, CyclesOf(run));
    InterruptedLoopCount(ProgramOf(m), s, run, s.last.imm, size);
    CoreShows(m, power, prefix + es);
  }
}

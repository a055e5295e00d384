/** Whole-run control-flow facts of the instruction-set machine: delay slots, call and return,
    interrupts and hardware loops. */
module IsaFlow {
  import opened Words
  import Pcu
  import opened Isa

  /** The address after `k` packets from `pc`, without any redirection. */
  function Nth(g: Program, pc: Addr, k: nat): Addr {
    if k == 0 then pc else Plus(Nth(g, pc, k - 1), g(Nth(g, pc, k - 1)).len)
  }

  /** The addresses of the first `k` packets from `pc`. */
  function Straight(g: Program, pc: Addr, k: nat): seq<Addr> {
    seq(k, i requires 0 <= i => Nth(g, pc, i))
  }

  lemma StraightSnoc(g: Program, pc: Addr, k: nat)
    ensures Straight(g, pc, k + 1) == Straight(g, pc, k) + [Nth(g, pc, k)]
  {
  }

  predicate NoInterrupt(cs: seq<Cycle>) {
    forall i :: 0 <= i < |cs| ==> !cs[i].act.Interrupt?
  }

  predicate NoRetpcWrite(cs: seq<Cycle>) {
    forall i :: 0 <= i < |cs| ==> !cs[i].env.write.WriteRetpc?
  }

  // ------------------------------------------------ branches, calls, returns

  /** The branch that the last executed packet turns out to be in the first cycle of a run. */
  function FirstBranch(s: Machine, cs: seq<Cycle>): Branch
    requires cs != []
  {
    BranchOf(s.last, cs[0].env.predBit, s.retpc, s.retipc)
  }

  /** How the machine stands after `n` of the packets that follow a taken branch. */
  ghost predicate Shadow(g: Program, s: Machine, b: Branch, n: nat, t: Machine)
    requires b.Branch?
  {
    && n <= b.slots
    && (t.last == Pcu.NOP || t.lastInSlot)
    && if n < b.slots then
         && t.pc == Nth(g, s.pc, n)
         && t.pending == Pending(b.target, b.slots - n, b.link)
       else
         t.pc == b.target && t.pending.NoPending?
  }

  /** The return address after a write to it, if there is one. */
  function Overridden(r: Addr, w: Pcu.SpecWrite): Addr {
    if w.WriteRetpc? then w.value else r
  }

  lemma {:induction false} ShadowStarts(g: Program, s: Machine, c: Cycle)
    requires s.pending.NoPending? && FirstBranch(s, [c]).Branch?
    requires Legal(s, c.act, c.env) && !c.act.Interrupt?
    requires |Executes(s, c)| <= FirstBranch(s, [c]).slots
    ensures Executes(s, c) == Straight(g, s.pc, |Executes(s, c)|)
    ensures var b, n, t := FirstBranch(s, [c]), |Executes(s, c)|, Step(g, s, c.act, c.env);
      && Shadow(g, s, b, n, t)
      && t.retpc == Overridden(if b.link && n == b.slots then Nth(g, s.pc, n) else s.retpc, c.env.write)
  {
    assert Nth(g, s.pc, 1) == Plus(Nth(g, s.pc, 0), g(Nth(g, s.pc, 0)).len);
  }

  lemma ShadowQuiet(g: Program, s: Machine, b: Branch, n: nat, t: Machine, c: Cycle)
    requires b.Branch? && Shadow(g, s, b, n, t) && Legal(t, c.act, c.env)
    ensures BranchOf(t.last, c.env.predBit, t.retpc, t.retipc).NoBranch? && !t.last.IsBkrep()
  {
  }

  lemma {:induction false} ShadowGoesOn(g: Program, s: Machine, b: Branch, n: nat, t: Machine, c: Cycle)
    requires b.Branch? && Shadow(g, s, b, n, t)
    requires Legal(t, c.act, c.env) && !c.act.Interrupt? && n + |Executes(t, c)| <= b.slots
    ensures var m, u := n + |Executes(t, c)|, Step(g, t, c.act, c.env);
      && Shadow(g, s, b, m, u)
      && u.retpc == Overridden(if b.link && n < m == b.slots then Nth(g, s.pc, m) else t.retpc, c.env.write)
  {
    ShadowQuiet(g, s, b, n, t, c);
  }

  lemma ShadowTrace(g: Program, s: Machine, b: Branch, n: nat, t: Machine, c: Cycle)
    requires b.Branch? && Shadow(g, s, b, n, t) && Legal(t, c.act, c.env) && n + |Executes(t, c)| <= b.slots
    ensures Straight(g, s.pc, n) + Executes(t, c) == Straight(g, s.pc, n + |Executes(t, c)|)
  {
    ShadowQuiet(g, s, b, n, t, c);
    StraightSnoc(g, s.pc, n);
  }

  /** What the packets `trace` of a run after a branch are, and how the machine stands then. */
  ghost predicate Shadowed(g: Program, s: Machine, b: Branch, trace: seq<Addr>, t: Machine)
    requires b.Branch?
  {
    trace == Straight(g, s.pc, |trace|) && Shadow(g, s, b, |trace|, t)
  }

  lemma ShadowNext(g: Program, s: Machine, b: Branch, trace: seq<Addr>, t: Machine, c: Cycle)
    requires b.Branch? && Shadowed(g, s, b, trace, t)
    requires Legal(t, c.act, c.env) && !c.act.Interrupt? && |trace| + |Executes(t, c)| <= b.slots
    ensures Shadowed(g, s, b, trace + Executes(t, c), Step(g, t, c.act, c.env))
  {
    ShadowGoesOn(g, s, b, |trace|, t, c);
    ShadowTrace(g, s, b, |trace|, t, c);
  }

  lemma {:induction false} ShadowRun(g: Program, s: Machine, cs: seq<Cycle>)
    requires cs != [] && s.pending.NoPending? && FirstBranch(s, cs).Branch?
    requires LegalRun(g, s, cs) && NoInterrupt(cs)
    requires |Trace(g, s, cs)| <= FirstBranch(s, cs).slots
    ensures Shadowed(g, s, FirstBranch(s, cs), Trace(g, s, cs), Run(g, s, cs))
  {
    var init, c := cs[..|cs| - 1], cs[|cs| - 1];
    if init == [] {
      assert cs == [c];
      OneCycle(g, s, c);
      ShadowStarts(g, s, c);
    } else {
      ShadowRun(g, s, init);
      ShadowNext(g, s, FirstBranch(s, cs), Trace(g, s, init), Run(g, s, init), c);
    }
  }

  // ------------------------------------------------------ the return address

  /** The return address after some cycles that do not link: what was last written, or what it was. */
  function Written(r: Addr, cs: seq<Cycle>): Addr {
    if cs == [] then r else Overridden(Written(r, cs[..|cs| - 1]), cs[|cs| - 1].env.write)
  }

  /** The cycles of a run from the one that executes its last packet, or all if none does. */
  function FromLast(g: Program, s: Machine, cs: seq<Cycle>): seq<Cycle> {
    if Trace(g, s, cs) == [] then cs
    else if Executes(Run(g, s, cs[..|cs| - 1]), cs[|cs| - 1]) != [] then [cs[|cs| - 1]]
    else FromLast(g, s, cs[..|cs| - 1]) + [cs[|cs| - 1]]
  }

  lemma WrittenLast(r: Addr, cs: seq<Cycle>, c: Cycle)
    ensures Written(r, cs + [c]) == Overridden(Written(r, cs), c.env.write)
  {
    assert (cs + [c])[..|cs + [c]| - 1] == cs;
  }

  lemma WrittenOnce(r: Addr, c: Cycle)
    ensures Written(r, [c]) == Overridden(r, c.env.write)
  {
    assert [c][..0] == [];
    assert Written(r, []) == r;
  }

  lemma {:induction false} NothingWritten(r: Addr, cs: seq<Cycle>)
    requires NoRetpcWrite(cs)
    ensures Written(r, cs) == r
  {
    if cs != [] {
      NothingWritten(r, cs[..|cs| - 1]);
    }
  }

  /** All cycles from the last packet on are cycles of the run. */
  lemma {:induction false} FromLastQuiet(g: Program, s: Machine, cs: seq<Cycle>)
    requires NoRetpcWrite(cs)
    ensures NoRetpcWrite(FromLast(g, s, cs))
  {
    if Trace(g, s, cs) != [] {
      FromLastQuiet(g, s, cs[..|cs| - 1]);
    }
  }

  /** What the return address is over a taken branch: a call sets it as it redirects the machine, with its
      last packet; the program's own writes come on top. */
  function RetpcAfter(g: Program, s: Machine, b: Branch, cs: seq<Cycle>): Addr
    requires b.Branch?
  {
    if b.link && |Trace(g, s, cs)| == b.slots then Written(Nth(g, s.pc, b.slots), FromLast(g, s, cs))
    else Written(s.retpc, cs)
  }

  lemma RetpcNext(g: Program, s: Machine, b: Branch, init: seq<Cycle>, c: Cycle)
    requires b.Branch? && |Trace(g, s, init + [c])| <= b.slots
    ensures var n, m := |Trace(g, s, init)|, |Trace(g, s, init + [c])|;
      RetpcAfter(g, s, b, init + [c])
      == RetpcMoved(g, s, b, n, m, RetpcAfter(g, s, b, init), c.env.write)
  {
    var t := Run(g, s, init);
    assert (init + [c])[..|init + [c]| - 1] == init;
    WrittenLast(s.retpc, init, c);
    WrittenLast(Nth(g, s.pc, b.slots), FromLast(g, s, init), c);
    WrittenOnce(Nth(g, s.pc, b.slots), c);
    RunLast(g, s, init, c);
    if Executes(t, c) == [] {
      assert Trace(g, s, init + [c]) == Trace(g, s, init);
    }
  }

  /** A run of the branch `b`: legal, not interrupted, and not beyond the delay slots. */
  ghost predicate BranchRun(g: Program, s: Machine, b: Branch, cs: seq<Cycle>)
    requires b.Branch?
  {
    LegalRun(g, s, cs) && NoInterrupt(cs) && |Trace(g, s, cs)| <= b.slots
  }

  lemma BranchRunSplits(g: Program, s: Machine, b: Branch, init: seq<Cycle>, c: Cycle)
    requires b.Branch? && BranchRun(g, s, b, init + [c])
    ensures BranchRun(g, s, b, init) && Legal(Run(g, s, init), c.act, c.env) && !c.act.Interrupt?
    ensures |Trace(g, s, init)| + |Executes(Run(g, s, init), c)| == |Trace(g, s, init + [c])| <= b.slots
  {
    RunLast(g, s, init, c);
    assert (init + [c])[|init|] == c;
    assert forall i :: 0 <= i < |init| ==> init[i] == (init + [c])[i];
  }

  /** One cycle's part: the link if it is made now, and the program's write. */
  function RetpcMoved(g: Program, s: Machine, b: Branch, n: nat, m: nat, r: Addr, w: Pcu.SpecWrite): Addr
    requires b.Branch?
  {
    Overridden(if b.link && n < m == b.slots then Nth(g, s.pc, m) else r, w)
  }

  lemma ShadowRetpc(g: Program, s: Machine, b: Branch, n: nat, t: Machine, c: Cycle, m: nat, u: Machine)
    requires b.Branch? && Shadow(g, s, b, n, t) && Legal(t, c.act, c.env) && !c.act.Interrupt?
    requires n + |Executes(t, c)| == m <= b.slots && u == Step(g, t, c.act, c.env)
    ensures u.retpc == RetpcMoved(g, s, b, n, m, t.retpc, c.env.write)
  {
    ShadowGoesOn(g, s, b, n, t, c);
  }

  lemma RetpcOfRun(g: Program, s: Machine, b: Branch, init: seq<Cycle>, c: Cycle)
    requires b.Branch? && BranchRun(g, s, b, init + [c])
    requires Shadow(g, s, b, |Trace(g, s, init)|, Run(g, s, init))
    ensures Run(g, s, init + [c]).retpc
      == RetpcMoved(g, s, b, |Trace(g, s, init)|, |Trace(g, s, init + [c])|, Run(g, s, init).retpc, c.env.write)
  {
    BranchRunSplits(g, s, b, init, c);
    RunStep(g, s, init, c);
    ShadowRetpc(g, s, b, |Trace(g, s, init)|, Run(g, s, init), c, |Trace(g, s, init + [c])|, Run(g, s, init + [c]));
  }

  lemma RetpcStep(g: Program, s: Machine, b: Branch, init: seq<Cycle>, c: Cycle)
    requires b.Branch? && BranchRun(g, s, b, init + [c])
    requires Shadow(g, s, b, |Trace(g, s, init)|, Run(g, s, init))
    requires Run(g, s, init).retpc == RetpcAfter(g, s, b, init)
    ensures Run(g, s, init + [c]).retpc == RetpcAfter(g, s, b, init + [c])
  {
    RetpcOfRun(g, s, b, init, c);
    RetpcNext(g, s, b, init, c);
  }

  lemma RetpcFrom(g: Program, s: Machine, b: Branch, init: seq<Cycle>, c: Cycle, cs: seq<Cycle>)
    requires cs == init + [c] && init != [] && s.pending.NoPending?
    requires FirstBranch(s, init) == b && b.Branch? && BranchRun(g, s, b, cs)
    requires Run(g, s, init).retpc == RetpcAfter(g, s, b, init)
    ensures Run(g, s, cs).retpc == RetpcAfter(g, s, b, cs)
  {
    BranchRunSplits(g, s, b, init, c);
    ShadowRun(g, s, init);
    RetpcStep(g, s, b, init, c);
  }

  lemma {:induction false} RetpcRun(g: Program, s: Machine, cs: seq<Cycle>)
    requires cs != [] && s.pending.NoPending? && FirstBranch(s, cs).Branch?
    requires BranchRun(g, s, FirstBranch(s, cs), cs)
    ensures Run(g, s, cs).retpc == RetpcAfter(g, s, FirstBranch(s, cs), cs)
  {
    var init, c := cs[..|cs| - 1], cs[|cs| - 1];
    assert cs == init + [c];
    if init == [] {
      RetpcStarts(g, s, c);
    } else {
      BranchRunSplits(g, s, FirstBranch(s, cs), init, c);
      RetpcRun(g, s, init);
      RetpcFrom(g, s, FirstBranch(s, cs), init, c, cs);
    }
  }

  lemma RetpcStarts(g: Program, s: Machine, c: Cycle)
    requires s.pending.NoPending? && FirstBranch(s, [c]).Branch?
    requires LegalRun(g, s, [c]) && !c.act.Interrupt? && |Trace(g, s, [c])| <= FirstBranch(s, [c]).slots
    ensures Run(g, s, [c]).retpc == RetpcAfter(g, s, FirstBranch(s, [c]), [c])
  {
    OneCycle(g, s, c);
    ShadowStarts(g, s, c);
    WrittenOnce(s.retpc, c);
    WrittenOnce(Nth(g, s.pc, FirstBranch(s, [c]).slots), c);
  }

  /** Where the program writes no return address, a call links to the first packet it does not execute,
      and nothing else touches it. */
  lemma RetpcUnwritten(g: Program, s: Machine, b: Branch, cs: seq<Cycle>)
    requires b.Branch? && NoRetpcWrite(cs) && |Trace(g, s, cs)| == b.slots
    ensures RetpcAfter(g, s, b, cs) == if b.link then Nth(g, s.pc, b.slots) else s.retpc
  {
    FromLastQuiet(g, s, cs);
    NothingWritten(Nth(g, s.pc, b.slots), FromLast(g, s, cs));
    NothingWritten(s.retpc, cs);
  }

  /** A taken branch, call or return with k delay slots executes exactly the next k packets and then its
      target, whatever the program writes meanwhile; a call links to the first packet it does not execute,
      and the program's writes to the return address come on top. */
  lemma {:induction false} DelaySlots(g: Program, s: Machine, cs: seq<Cycle>)
    requires Redirects(g, s, cs) && LegalRun(g, s, cs)
    ensures var b, t := FirstBranch(s, cs), Run(g, s, cs);
      && Trace(g, s, cs) == Straight(g, s.pc, b.slots)
      && t.pc == b.target && t.pending.NoPending? && (t.last == Pcu.NOP || t.lastInSlot)
      && t.retpc == RetpcAfter(g, s, b, cs)
      && (NoRetpcWrite(cs) ==> t.retpc == if b.link then Nth(g, s.pc, b.slots) else s.retpc)
  {
    ShadowRun(g, s, cs);
    RetpcRun(g, s, cs);
    if NoRetpcWrite(cs) {
      RetpcUnwritten(g, s, FirstBranch(s, cs), cs);
    }
  }

  /** The run `cs` from `s` is a taken branch and its delay slots, no more. */
  ghost predicate Redirects(g: Program, s: Machine, cs: seq<Cycle>) {
    && cs != [] && s.pending.NoPending? && NoInterrupt(cs)
    && FirstBranch(s, cs).Branch?
    && |Trace(g, s, cs)| == FirstBranch(s, cs).slots
  }

  ghost predicate Calls(g: Program, s: Machine, cs: seq<Cycle>) {
    Redirects(g, s, cs) && FirstBranch(s, cs).link
  }

  ghost predicate Returns(g: Program, s: Machine, cs: seq<Cycle>) {
    Redirects(g, s, cs) && !s.last.Enc32() && s.last.itype == Pcu.Rets
  }

  ghost predicate ReturnsFromInterrupt(g: Program, s: Machine, cs: seq<Cycle>) {
    Redirects(g, s, cs) && !s.last.Enc32() && s.last.itype == Pcu.Reti
  }

  /** A return goes to the address the register held before the cycle in which it takes effect: one that
      the program writes in that very cycle comes too late, and is gone to only if it is the same. */
  lemma ReturnsToOld(g: Program, s: Machine, ret: seq<Cycle>)
    requires LegalRun(g, s, ret) && Returns(g, s, ret)
    ensures Run(g, s, ret).pc == s.retpc
    ensures var w := ret[0].env.write; w.WriteRetpc? ==> (Run(g, s, ret).pc == w.value <==> w.value == s.retpc)
    ensures Trace(g, s, ret) == Straight(g, s.pc, FirstBranch(s, ret).slots)
  {
    DelaySlots(g, s, ret);
  }

  /** Call, any callee, and return: the caller's packets in the delay slots execute before the callee, and
      the caller goes on at the return address as the callee left it. The call set it to the first packet
      it left out, unless the program wrote another one on top, so that the caller's packets execute
      exactly once if and only if the callee hands that address back. */
  lemma {:induction false} CallThenReturn(g: Program, s: Machine, call: seq<Cycle>, callee: seq<Cycle>, ret: seq<Cycle>)
    requires LegalRun(g, s, call + callee + ret)
    requires Calls(g, s, call) && Returns(g, Run(g, s, call + callee), ret)
    ensures var b, t := FirstBranch(s, call), Run(g, s, call + callee);
      && Run(g, s, call).pc == b.target && Run(g, s, call).retpc == RetpcAfter(g, s, b, call)
      && (NoRetpcWrite(call) ==> Run(g, s, call).retpc == Nth(g, s.pc, b.slots))
      && Run(g, s, call + callee + ret).pc == t.retpc
      && Trace(g, s, call + callee + ret)
         == Straight(g, s.pc, b.slots) + Trace(g, Run(g, s, call), callee)
            + Straight(g, t.pc, FirstBranch(t, ret).slots)
  {
    Append(g, s, call + callee, ret);
    Append(g, s, call, callee);
    DelaySlots(g, s, call);
    ReturnsToOld(g, Run(g, s, call + callee), ret);
  }

  // ------------------------------------------------------------- interrupts

  /** Entry: no packet executes, and the return address is the next packet, unless the program writes
      the register in the very cycle. */
  lemma InterruptEntry(g: Program, s: Machine, c: Cycle)
    requires c.act.Interrupt? && Precise(s, c.act, c.env) && Legal(s, c.act, c.env)
    ensures var t, w := Step(g, s, c.act, c.env), c.env.write;
      && Executes(s, c) == [] && t.pc == 4 && !t.irqEnable && t.pending.NoPending?
      && t.retipc == (if w.WriteRetipc? then w.value else s.pc)
      && t.retpc == (if w.WriteRetpc? then w.value else s.retpc)
      && t.loop == LoopAfterEntry(s, c.env)
  {
  }

  lemma OneCycle(g: Program, s: Machine, c: Cycle)
    ensures Run(g, s, [c]) == Step(g, s, c.act, c.env)
    ensures LegalRun(g, s, [c]) <==> Legal(s, c.act, c.env)
    ensures Trace(g, s, [c]) == Executes(s, c)
  {
    assert [c][..0] == [];
  }

  /** The packets up to the end of the handler are the handler's. */
  lemma HandlerOnly(g: Program, s: Machine, entry: Cycle, handler: seq<Cycle>)
    requires entry.act.Interrupt? && Precise(s, entry.act, entry.env) && Legal(s, entry.act, entry.env)
    ensures Trace(g, s, [entry] + handler) == Trace(g, Run(g, s, [entry]), handler)
    ensures Run(g, s, [entry]).loop == LoopAfterEntry(s, entry.env)
  {
    AppendTrace(g, s, [entry], handler);
    OneCycle(g, s, entry);
    InterruptEntry(g, s, entry);
    assert [] + Trace(g, Run(g, s, [entry]), handler) == Trace(g, Run(g, s, [entry]), handler);
  }

  lemma ReturnAlone(g: Program, t: Machine, ret: seq<Cycle>)
    requires LegalRun(g, t, ret) && ReturnsFromInterrupt(g, t, ret)
    ensures var u := Run(g, t, ret); u.pc == t.retipc && u.pending.NoPending? && (u.last == Pcu.NOP || u.lastInSlot)
    ensures Trace(g, t, ret) == Straight(g, t.pc, FirstBranch(t, ret).slots)
  {
    assert FirstBranch(t, ret) == Branch(t.retipc, FirstBranch(t, ret).slots, false);
    DelaySlots(g, t, ret);
  }

  /** An interrupt, whatever its handler does, resumes where the interrupt return address says at the
      end: at the very packet that was next, so that the program neither loses nor repeats one, if and
      only if the address is still the one that was saved. */
  lemma {:induction false} InterruptThenReturn(
      g: Program, s: Machine, entry: Cycle, handler: seq<Cycle>, ret: seq<Cycle>)
    requires LegalRun(g, s, [entry] + handler + ret)
    requires entry.act.Interrupt? && Precise(s, entry.act, entry.env)
    requires ReturnsFromInterrupt(g, Run(g, s, [entry] + handler), ret)
    ensures var t, u := Run(g, s, [entry] + handler), Run(g, s, [entry] + handler + ret);
      && u.pc == t.retipc && u.pending.NoPending? && (u.last == Pcu.NOP || u.lastInSlot)
      && Run(g, s, [entry]).loop == LoopAfterEntry(s, entry.env)
      && Trace(g, s, [entry] + handler + ret)
         == Trace(g, Run(g, s, [entry]), handler) + Straight(g, t.pc, FirstBranch(t, ret).slots)
  {
    Append(g, s, [entry] + handler, ret);
    AppendLegal(g, s, [entry], handler);
    OneCycle(g, s, entry);
    HandlerOnly(g, s, entry, handler);
    ReturnAlone(g, Run(g, s, [entry] + handler), ret);
  }

  lemma StepKeepsRetipc(g: Program, s: Machine, c: Cycle)
    requires !c.act.Interrupt? && !c.env.write.WriteRetipc?
    ensures Step(g, s, c.act, c.env).retipc == s.retipc
  {
  }

  predicate NoRetipcWrite(cs: seq<Cycle>) {
    forall i :: 0 <= i < |cs| ==> !cs[i].env.write.WriteRetipc?
  }

  /** The interrupt return address changes only by an interrupt or an explicit write. */
  lemma {:induction false} RetipcStable(g: Program, s: Machine, cs: seq<Cycle>)
    requires NoInterrupt(cs) && NoRetipcWrite(cs)
    ensures Run(g, s, cs).retipc == s.retipc
  {
    if cs != [] {
      RetipcStable(g, s, cs[..|cs| - 1]);
      StepKeepsRetipc(g, Run(g, s, cs[..|cs| - 1]), cs[|cs| - 1]);
    }
  }

  /** Under a handler that is not interrupted itself and writes no interrupt return address, that is the
      interrupted packet, unless the program writes the register in the very cycle of the entry. */
  lemma PlainHandler(g: Program, s: Machine, entry: Cycle, handler: seq<Cycle>)
    requires entry.act.Interrupt? && Precise(s, entry.act, entry.env) && Legal(s, entry.act, entry.env)
    requires NoInterrupt(handler) && NoRetipcWrite(handler)
    ensures Run(g, s, [entry] + handler).retipc
      == if entry.env.write.WriteRetipc? then entry.env.write.value else s.pc
  {
    AppendRun(g, s, [entry], handler);
    OneCycle(g, s, entry);
    InterruptEntry(g, s, entry);
    RetipcStable(g, Run(g, s, [entry]), handler);
  }

  // --------------------------------------------------------- hardware loops

  /** A packet that neither branches nor sets up a loop, whatever the predicates. */
  predicate Sequential(i: Pcu.Inst) {
    i.itype.Nil? || i.itype.Other? || i.itype.Eint? || i.itype.Dint? || i.itype.Halt?
  }

  /** The part of the machine a sequential stretch moves. */
  datatype Place = Place(pc: Addr, pending: Pending, count: Addr)

  function PlaceOf(s: Machine): Place {
    Place(s.pc, s.pending, s.loop.count)
  }

  /** One packet of a sequential stretch, in a loop from `begin` to the packet after `end`. */
  function Advance(g: Program, begin: Addr, end: Addr, p: Place): Place {
    var next := Plus(p.pc, g(p.pc).len);
    match p.pending
    case Pending(target, slots, _) =>
      if slots <= 1 then Place(target, NoPending, p.count)
      else Place(next, p.pending.(slots := slots - 1), p.count)
    case NoPending =>
      if p.count != 0 && p.pc == end then Place(next, Pending(begin, 1, false), p.count - 1)
      else Place(next, NoPending, p.count)
  }

  function AdvanceBy(g: Program, begin: Addr, end: Addr, p: Place, n: nat): Place {
    if n == 0 then p else Advance(g, begin, end, AdvanceBy(g, begin, end, p, n - 1))
  }

  function Visited(g: Program, begin: Addr, end: Addr, p: Place, n: nat): seq<Addr> {
    if n == 0 then [] else Visited(g, begin, end, p, n - 1) + [AdvanceBy(g, begin, end, p, n - 1).pc]
  }

  lemma {:induction false} AdvanceSum(g: Program, begin: Addr, end: Addr, p: Place, a: nat, b: nat)
    ensures AdvanceBy(g, begin, end, p, a + b) == AdvanceBy(g, begin, end, AdvanceBy(g, begin, end, p, a), b)
    ensures Visited(g, begin, end, p, a + b)
         == Visited(g, begin, end, p, a) + Visited(g, begin, end, AdvanceBy(g, begin, end, p, a), b)
  {
    if b > 0 {
      AdvanceSum(g, begin, end, p, a, b - 1);
    }
  }

  /** A run without interrupts and loop-register writes. */
  predicate Undisturbed(cs: seq<Cycle>) {
    && NoInterrupt(cs)
    && forall i :: 0 <= i < |cs| ==> !cs[i].env.write.WriteLoopCount?
  }

  ghost predicate SequentialAlong(g: Program, begin: Addr, end: Addr, p: Place, n: nat) {
    forall k :: 0 <= k < n ==> Sequential(g(AdvanceBy(g, begin, end, p, k).pc).inst)
  }

  /** The loop registers say `begin` and `end`, or the last packet is the `bkrep` that says so. */
  ghost predicate InLoop(s: Machine, begin: Addr, end: Addr) {
    || ((Sequential(s.last) || s.lastInSlot) && s.loop.begin == begin && s.loop.end == end)
    || (s.last.IsBkrep() && s.pc == begin && s.last.imm == end && s.pending.NoPending?)
  }

  ghost predicate Ready(s: Machine) {
    s.pending.Pending? ==> s.pending.slots == 1 && !s.pending.link
  }

  lemma {:induction false} SequentialCycle(g: Program, s: Machine, c: Cycle, begin: Addr, end: Addr)
    requires InLoop(s, begin, end) && Ready(s) && Legal(s, c.act, c.env)
    requires !c.act.Interrupt? && !c.env.write.WriteLoopCount?
    requires c.act.Packet? ==> Sequential(g(s.pc).inst)
    ensures var t := Step(g, s, c.act, c.env);
      && InLoop(t, begin, end) && Ready(t) && Sequential(t.last)
      && PlaceOf(t) == (if c.act.Packet? then Advance(g, begin, end, PlaceOf(s)) else PlaceOf(s))
    ensures Executes(s, c) == (if c.act.Packet? then [s.pc] else [])
  {
  }

  /** The machine `t` has come from `p` by executing the packets `trace`, and stands in the loop. */
  ghost predicate Traced(g: Program, begin: Addr, end: Addr, p: Place, t: Machine, trace: seq<Addr>) {
    && PlaceOf(t) == AdvanceBy(g, begin, end, p, |trace|)
    && trace == Visited(g, begin, end, p, |trace|)
    && InLoop(t, begin, end) && Ready(t)
  }

  lemma TracedStep(g: Program, begin: Addr, end: Addr, p: Place, t: Machine, trace: seq<Addr>, c: Cycle)
    requires Traced(g, begin, end, p, t, trace) && Legal(t, c.act, c.env)
    requires !c.act.Interrupt? && !c.env.write.WriteLoopCount?
    requires c.act.Packet? ==> Sequential(g(t.pc).inst)
    ensures Traced(g, begin, end, p, Step(g, t, c.act, c.env), trace + Executes(t, c))
  {
    SequentialCycle(g, t, c, begin, end);
    if c.act.Packet? {
      assert trace + Executes(t, c) == Visited(g, begin, end, p, |trace| + 1);
    } else {
      assert trace + Executes(t, c) == trace;
    }
  }

  /** An undisturbed stretch of sequential packets. */
  lemma {:induction false} TracedRun(
      g: Program, begin: Addr, end: Addr, p: Place, t: Machine, trace: seq<Addr>, cs: seq<Cycle>, n: nat)
    requires Traced(g, begin, end, p, t, trace) && LegalRun(g, t, cs) && Undisturbed(cs)
    requires |trace| + |Trace(g, t, cs)| <= n && SequentialAlong(g, begin, end, p, n)
    ensures Traced(g, begin, end, p, Run(g, t, cs), trace + Trace(g, t, cs))
    decreases cs
  {
    if cs == [] {
      assert trace + [] == trace;
    } else {
      var init, c := cs[..|cs| - 1], cs[|cs| - 1];
      var u, more := Run(g, t, init), trace + Trace(g, t, init);
      TracedRun(g, begin, end, p, t, trace, init, n);
      if c.act.Packet? {
        SequentialStands(g, begin, end, p, u, c, more, n);
      }
      TracedStep(g, begin, end, p, u, more, c);
      Assoc(trace, Trace(g, t, init), Executes(u, c));
    }
  }

  lemma SequentialStands(
      g: Program, begin: Addr, end: Addr, p: Place, t: Machine, c: Cycle, trace: seq<Addr>, n: nat)
    requires Traced(g, begin, end, p, t, trace) && SequentialAlong(g, begin, end, p, n)
    requires |trace| + |Executes(t, c)| <= n && c.act.Packet?
    ensures Sequential(g(t.pc).inst)
  {
    assert PlaceOf(t).pc == t.pc;
  }

  /** A loop body: `m` straight-line packets from `begin`, at least three, none of which
      branches, with the end label on the last but one and nowhere before. */
  ghost predicate Body(g: Program, begin: Addr, end: Addr, m: nat) {
    && m >= 3
    && Nth(g, begin, m - 2) == end
    && (forall k :: 0 <= k < m - 2 ==> Nth(g, begin, k) != end)
    && (forall k :: 0 <= k < m ==> Sequential(g(Nth(g, begin, k)).inst))
  }

  function Times(s: seq<Addr>, n: nat): seq<Addr> {
    if n == 0 then [] else s + Times(s, n - 1)
  }

  /** The packets of the body up to and including the end packet. */
  lemma {:induction false} UpToEnd(g: Program, begin: Addr, end: Addr, m: nat, count: Addr, k: nat)
    requires Body(g, begin, end, m) && k <= m - 2
    ensures AdvanceBy(g, begin, end, Place(begin, NoPending, count), k) == Place(Nth(g, begin, k), NoPending, count)
    ensures Visited(g, begin, end, Place(begin, NoPending, count), k) == Straight(g, begin, k)
  {
    if k > 0 {
      UpToEnd(g, begin, end, m, count, k - 1);
      StraightSnoc(g, begin, k - 1);
    }
  }

  /** Where one turn of the body leads. */
  function AfterTurn(g: Program, begin: Addr, m: nat, count: Addr): Place {
    if count > 0 then Place(begin, NoPending, count - 1) else Place(Nth(g, begin, m), NoPending, 0)
  }

  /** The end packet: if the counter is not zero it is counted, and one more packet follows. */
  lemma {:induction false} PastEnd(g: Program, begin: Addr, end: Addr, m: nat, count: Addr)
    requires Body(g, begin, end, m)
    ensures AdvanceBy(g, begin, end, Place(begin, NoPending, count), m - 1)
         == if count > 0 then Place(Nth(g, begin, m - 1), Pending(begin, 1, false), count - 1)
            else Place(Nth(g, begin, m - 1), NoPending, 0)
    ensures Visited(g, begin, end, Place(begin, NoPending, count), m - 1) == Straight(g, begin, m - 1)
  {
    UpToEnd(g, begin, end, m, count, m - 2);
    StraightSnoc(g, begin, m - 2);
  }

  /** One turn: back to the start with the counter one less, or out at the far end. */
  lemma {:induction false} OneTurn(g: Program, begin: Addr, end: Addr, m: nat, count: Addr)
    requires Body(g, begin, end, m)
    ensures AdvanceBy(g, begin, end, Place(begin, NoPending, count), m) == AfterTurn(g, begin, m, count)
    ensures Visited(g, begin, end, Place(begin, NoPending, count), m) == Straight(g, begin, m)
  {
    PastEnd(g, begin, end, m, count);
    StraightSnoc(g, begin, m - 1);
  }

  /** Every packet of every turn is one of the body's. */
  lemma {:induction false} SequentialTurn(g: Program, begin: Addr, end: Addr, m: nat, count: Addr, k: nat)
    requires Body(g, begin, end, m) && k < m
    ensures Sequential(g(AdvanceBy(g, begin, end, Place(begin, NoPending, count), k).pc).inst)
  {
    if k <= m - 2 {
      UpToEnd(g, begin, end, m, count, k);
    } else {
      PastEnd(g, begin, end, m, count);
    }
  }

  /** One turn more, with `rest` packets after it. */
  lemma TurnBefore(g: Program, begin: Addr, end: Addr, m: nat, count: Addr, rest: nat)
    requires Body(g, begin, end, m) && count > 0
    ensures var p, q := Place(begin, NoPending, count), Place(begin, NoPending, count - 1);
      && AdvanceBy(g, begin, end, p, m + rest) == AdvanceBy(g, begin, end, q, rest)
      && Visited(g, begin, end, p, m + rest) == Straight(g, begin, m) + Visited(g, begin, end, q, rest)
  {
    OneTurn(g, begin, end, m, count);
    AdvanceSum(g, begin, end, Place(begin, NoPending, count), m, rest);
  }

  /** The packets of `n` turns. */
  function Turns(m: nat, n: nat): nat {
    if n == 0 then 0 else m + Turns(m, n - 1)
  }

  lemma {:induction false} TurnsProduct(m: nat, n: nat)
    ensures Turns(m, n) == m * n
  {
    if n > 0 {
      TurnsProduct(m, n - 1);
    }
  }

  lemma {:induction false} TurnByTurn(g: Program, begin: Addr, end: Addr, m: nat, count: Addr)
    requires Body(g, begin, end, m)
    ensures AdvanceBy(g, begin, end, Place(begin, NoPending, count), Turns(m, count + 1))
         == Place(Nth(g, begin, m), NoPending, 0)
    ensures Visited(g, begin, end, Place(begin, NoPending, count), Turns(m, count + 1))
         == Times(Straight(g, begin, m), count + 1)
    decreases count
  {
    if count > 0 {
      TurnByTurn(g, begin, end, m, count - 1);
      TurnBefore(g, begin, end, m, count, Turns(m, count));
    } else {
      OneTurn(g, begin, end, m, count);
      assert Turns(m, 0) == 0;
      assert Times(Straight(g, begin, m), 1) == Straight(g, begin, m) + Times(Straight(g, begin, m), 0);
    }
  }

  /** The whole loop, in packets: `count + 1` turns, then out, with the counter at zero. */
  lemma AllTurns(g: Program, begin: Addr, end: Addr, m: nat, count: Addr)
    requires Body(g, begin, end, m)
    ensures AdvanceBy(g, begin, end, Place(begin, NoPending, count), m * (count + 1))
         == Place(Nth(g, begin, m), NoPending, 0)
    ensures Visited(g, begin, end, Place(begin, NoPending, count), m * (count + 1))
         == Times(Straight(g, begin, m), count + 1)
  {
    TurnByTurn(g, begin, end, m, count);
    TurnsProduct(m, count + 1);
  }

  lemma {:induction false} AllSequential(g: Program, begin: Addr, end: Addr, m: nat, count: Addr, k: nat)
    requires Body(g, begin, end, m) && k < m * (count + 1)
    ensures Sequential(g(AdvanceBy(g, begin, end, Place(begin, NoPending, count), k).pc).inst)
    decreases count
  {
    if k < m {
      SequentialTurn(g, begin, end, m, count, k);
    } else {
      TurnsProduct(m, count);
      TurnsProduct(m, count + 1);
      OneTurn(g, begin, end, m, count);
      AdvanceSum(g, begin, end, Place(begin, NoPending, count), m, k - m);
      AllSequential(g, begin, end, m, count - 1, k - m);
    }
  }

  /** Where a loop starts: `bkrep` has just executed. */
  ghost predicate AtLoopStart(g: Program, s: Machine, end: Addr, m: nat) {
    s.last.IsBkrep() && s.last.imm == end && s.pending.NoPending? && Body(g, s.pc, end, m)
  }

  /** What the whole loop amounts to, for a machine that has come as far as its last packet. */
  lemma {:induction false} LoopDone(g: Program, s: Machine, end: Addr, m: nat, t: Machine, trace: seq<Addr>)
    requires AtLoopStart(g, s, end, m) && Traced(g, s.pc, end, PlaceOf(s), t, trace)
    requires |trace| == m * (s.loop.count + 1)
    ensures trace == Times(Straight(g, s.pc, m), s.loop.count + 1)
    ensures t.pc == Nth(g, s.pc, m) && t.pending.NoPending? && t.loop.count == 0
  {
    AllTurns(g, s.pc, end, m, s.loop.count);
  }

  lemma {:induction false} LoopStarts(g: Program, s: Machine, end: Addr, m: nat)
    requires AtLoopStart(g, s, end, m)
    ensures Traced(g, s.pc, end, PlaceOf(s), s, [])
    ensures SequentialAlong(g, s.pc, end, PlaceOf(s), m * (s.loop.count + 1))
  {
    forall k: nat | k < m * (s.loop.count + 1)
      ensures Sequential(g(AdvanceBy(g, s.pc, end, PlaceOf(s), k).pc).inst)
    {
      AllSequential(g, s.pc, end, m, s.loop.count, k);
    }
  }

  /** The zero-overhead loop: after `bkrep` with the counter at n, an undisturbed run executes the
      body n + 1 times in order and falls through with the counter at zero. */
  lemma {:induction false} LoopCount(g: Program, s: Machine, cs: seq<Cycle>, end: Addr, m: nat)
    requires AtLoopStart(g, s, end, m) && LegalRun(g, s, cs) && Undisturbed(cs)
    requires |Trace(g, s, cs)| == m * (s.loop.count + 1)
    ensures Trace(g, s, cs) == Times(Straight(g, s.pc, m), s.loop.count + 1)
    ensures var t := Run(g, s, cs);
      t.pc == Nth(g, s.pc, m) && t.pending.NoPending? && t.loop.count == 0
  {
    LoopStarts(g, s, end, m);
    TracedRun(g, s.pc, end, PlaceOf(s), s, [], cs, m * (s.loop.count + 1));
    assert [] + Trace(g, s, cs) == Trace(g, s, cs);
    LoopDone(g, s, end, m, Run(g, s, cs), Trace(g, s, cs));
  }

  /** A cycle that does not count a turn of a loop. */
  predicate NoTurn(s: Machine, c: Cycle) {
    c.act.Packet? ==> !Pcu.AtLoopEnd(Resolve(s, c.env.predBit).loop, Resolve(s, c.env.predBit).pc)
  }

  /** A program that prepares a loop: no writes to the counter, no interrupts, and no turns of another loop. */
  ghost predicate Preparing(g: Program, s: Machine, cs: seq<Cycle>) {
    cs == [] || (
      && Preparing(g, s, cs[..|cs| - 1])
      && !cs[|cs| - 1].act.Interrupt? && !cs[|cs| - 1].env.write.WriteLoopCount?
      && NoTurn(Run(g, s, cs[..|cs| - 1]), cs[|cs| - 1]))
  }

  lemma {:induction false} CounterKept(g: Program, s: Machine, cs: seq<Cycle>)
    requires Preparing(g, s, cs)
    ensures Run(g, s, cs).loop.count == s.loop.count
  {
    if cs != [] {
      CounterKept(g, s, cs[..|cs| - 1]);
    }
  }

  /** What is written to the loop counter is in it after the cycle. */
  lemma CounterWritten(g: Program, s: Machine, c: Cycle)
    requires c.env.write.WriteLoopCount?
    ensures Run(g, s, [c]).loop.count == c.env.write.value
  {
    OneCycle(g, s, c);
  }

  /** The program writes `n` to the loop counter and then prepares for the loop. */
  ghost predicate SetsUp(g: Program, s: Machine, head: seq<Cycle>, n: Addr) {
    head != [] && head[0].env.write == Pcu.WriteLoopCount(n) && Preparing(g, Run(g, s, [head[0]]), head[1..])
  }

  lemma CounterReady(g: Program, s: Machine, head: seq<Cycle>, n: Addr)
    requires SetsUp(g, s, head, n)
    ensures Run(g, s, head).loop.count == n
  {
    CounterWritten(g, s, head[0]);
    CounterKept(g, Run(g, s, [head[0]]), head[1..]);
    AppendRun(g, s, [head[0]], head[1..]);
    assert [head[0]] + head[1..] == head;
  }

  /** The loop as a program sets it up: it writes n to the counter, comes to a `bkrep`, and the body is
      executed n + 1 times. */
  lemma WrittenLoop(g: Program, s: Machine, head: seq<Cycle>, n: Addr, cs: seq<Cycle>, m: nat)
    requires SetsUp(g, s, head, n) && LegalRun(g, s, head + cs) && Undisturbed(cs)
    requires var t := Run(g, s, head); AtLoopStart(g, t, t.last.imm, m) && |Trace(g, t, cs)| == m * (n + 1)
    ensures Trace(g, s, head + cs) == Trace(g, s, head) + Times(Straight(g, Run(g, s, head).pc, m), n + 1)
    ensures Run(g, s, head + cs).loop.count == 0
  {
    CounterReady(g, s, head, n);
    LoopAfter(g, s, head, n, cs, m);
  }

  lemma LoopAfter(g: Program, s: Machine, head: seq<Cycle>, n: Addr, cs: seq<Cycle>, m: nat)
    requires LegalRun(g, s, head + cs) && Undisturbed(cs) && Run(g, s, head).loop.count == n
    requires var t := Run(g, s, head); AtLoopStart(g, t, t.last.imm, m) && |Trace(g, t, cs)| == m * (n + 1)
    ensures Trace(g, s, head + cs) == Trace(g, s, head) + Times(Straight(g, Run(g, s, head).pc, m), n + 1)
    ensures Run(g, s, head + cs).loop.count == 0
  {
    AppendTrace(g, s, head, cs);
    AppendRun(g, s, head, cs);
    AppendLegal(g, s, head, cs);
    LoopCount(g, Run(g, s, head), cs, Run(g, s, head).last.imm, m);
  }

  // --------------------------------------------- hardware loops and interrupts

  /** A stretch of a run: cycles of the interrupted program, or one interrupt with its handler. */
  datatype Stretch =
    | Own(cycles: seq<Cycle>)
    | Handled(entry: Cycle, handler: seq<Cycle>, ret: seq<Cycle>)
  {
    function Cycles(): seq<Cycle> {
      match this
      case Own(cycles) => cycles
      case Handled(entry, handler, ret) => [entry] + handler + ret
    }
  }

  function CyclesOf(run: seq<Stretch>): seq<Cycle> {
    if run == [] then [] else CyclesOf(run[..|run| - 1]) + run[|run| - 1].Cycles()
  }

  /** The packets of a run with those of the handlers taken out. */
  function OwnTrace(g: Program, s: Machine, run: seq<Stretch>): seq<Addr> {
    if run == [] then []
    else
      var init, last := run[..|run| - 1], run[|run| - 1];
      OwnTrace(g, s, init) + (if last.Own? then Trace(g, Run(g, s, CyclesOf(init)), last.cycles) else [])
  }

  /** The loop registers as the interrupted program has them: a `bkrep` that is skipped at the moment of
      the interrupt still sets begin and end. */
  function LoopLeft(s: Machine): Pcu.Loop {
    if s.last.IsBkrep() then s.loop.(begin := s.pc, end := s.last.imm) else s.loop
  }

  /** The program's own cycles leave the loop counter alone; a handler returns by `reti` to where it was
      entered from, with the loop registers as the program left them. */
  ghost predicate Proper(g: Program, s: Machine, x: Stretch) {
    match x
    case Own(cycles) => Undisturbed(cycles)
    case Handled(entry, handler, ret) =>
      && entry.act.Interrupt?
      && ReturnsFromInterrupt(g, Run(g, s, [entry] + handler), ret)
      && Run(g, s, [entry] + handler).retipc == s.pc
      && Run(g, s, [entry] + handler + ret).loop == LoopLeft(s)
  }

  ghost predicate ProperRun(g: Program, s: Machine, run: seq<Stretch>) {
    run == [] || (
      && ProperRun(g, s, run[..|run| - 1])
      && Proper(g, Run(g, s, CyclesOf(run[..|run| - 1])), run[|run| - 1]))
  }

  lemma {:induction false} PreciseAppend(g: Program, s: Machine, a: seq<Cycle>, b: seq<Cycle>)
    requires PreciseRun(g, s, a + b)
    ensures PreciseRun(g, s, a) && PreciseRun(g, Run(g, s, a), b)
  {
    if b == [] {
      assert a + b == a;
    } else {
      var init := b[..|b| - 1];
      assert (a + b)[..|a + b| - 1] == a + init;
      PreciseAppend(g, s, a, init);
      Append(g, s, a, init);
    }
  }

  lemma {:induction false} PreciseFirst(g: Program, s: Machine, cs: seq<Cycle>)
    requires PreciseRun(g, s, cs) && cs != []
    ensures Precise(s, cs[0].act, cs[0].env)
  {
    if |cs| > 1 {
      PreciseFirst(g, s, cs[..|cs| - 1]);
    }
  }

  lemma {:induction false} LegalFirst(g: Program, s: Machine, cs: seq<Cycle>)
    requires LegalRun(g, s, cs) && cs != []
    ensures Legal(s, cs[0].act, cs[0].env)
  {
    if |cs| > 1 {
      LegalFirst(g, s, cs[..|cs| - 1]);
    }
  }

  /** Back from a handler, the machine stands in the loop as it did before. */
  lemma LoopResumes(begin: Addr, end: Addr, s: Machine, entry: Cycle, u: Machine)
    requires InLoop(s, begin, end) && entry.act.Interrupt?
    requires Precise(s, entry.act, entry.env) && Legal(s, entry.act, entry.env)
    requires u.pc == s.pc && u.pending.NoPending? && (u.last == Pcu.NOP || u.lastInSlot) && u.loop == LoopLeft(s)
    ensures InLoop(u, begin, end) && Ready(u) && PlaceOf(u) == PlaceOf(s)
  {
  }

  /** An interrupt and its handler leave the interrupted loop as it was. */
  lemma TracedHandler(g: Program, begin: Addr, end: Addr, p: Place, t: Machine, trace: seq<Addr>, x: Stretch)
    requires Traced(g, begin, end, p, t, trace) && x.Handled? && Proper(g, t, x)
    requires LegalRun(g, t, x.Cycles()) && PreciseRun(g, t, x.Cycles())
    ensures Traced(g, begin, end, p, Run(g, t, x.Cycles()), trace)
  {
    PreciseFirst(g, t, x.Cycles());
    LegalFirst(g, t, x.Cycles());
    assert x.Cycles()[0] == x.entry;
    InterruptThenReturn(g, t, x.entry, x.handler, x.ret);
    LoopResumes(begin, end, t, x.entry, Run(g, t, x.Cycles()));
  }

  lemma {:induction false} TracedStretches(g: Program, s: Machine, begin: Addr, end: Addr, run: seq<Stretch>, n: nat)
    requires Traced(g, begin, end, PlaceOf(s), s, []) && ProperRun(g, s, run)
    requires LegalRun(g, s, CyclesOf(run)) && PreciseRun(g, s, CyclesOf(run))
    requires |OwnTrace(g, s, run)| <= n && SequentialAlong(g, begin, end, PlaceOf(s), n)
    ensures Traced(g, begin, end, PlaceOf(s), Run(g, s, CyclesOf(run)), OwnTrace(g, s, run))
    decreases run
  {
    if run != [] {
      var init, x := run[..|run| - 1], run[|run| - 1];
      var cs := CyclesOf(init);
      Append(g, s, cs, x.Cycles());
      PreciseAppend(g, s, cs, x.Cycles());
      TracedStretches(g, s, begin, end, init, n);
      if x.Own? {
        TracedRun(g, begin, end, PlaceOf(s), Run(g, s, cs), OwnTrace(g, s, init), x.cycles, n);
      } else {
        TracedHandler(g, begin, end, PlaceOf(s), Run(g, s, cs), OwnTrace(g, s, init), x);
        assert OwnTrace(g, s, run) == OwnTrace(g, s, init);
      }
    }
  }

  /** A hardware loop that is interrupted any number of times, between any packets, by handlers that
      give the loop registers back: without the handlers' packets its body still executes n + 1 times,
      in order. */
  lemma {:induction false} InterruptedLoopCount(g: Program, s: Machine, run: seq<Stretch>, end: Addr, m: nat)
    requires AtLoopStart(g, s, end, m) && ProperRun(g, s, run)
    requires LegalRun(g, s, CyclesOf(run)) && PreciseRun(g, s, CyclesOf(run))
    requires |OwnTrace(g, s, run)| == m * (s.loop.count + 1)
    ensures OwnTrace(g, s, run) == Times(Straight(g, s.pc, m), s.loop.count + 1)
    ensures var t := Run(g, s, CyclesOf(run));
      t.pc == Nth(g, s.pc, m) && t.pending.NoPending? && t.loop.count == 0
  {
    LoopStarts(g, s, end, m);
    TracedStretches(g, s, s.pc, end, run, m * (s.loop.count + 1));
    LoopDone(g, s, end, m, Run(g, s, CyclesOf(run)), OwnTrace(g, s, run));
  }
}

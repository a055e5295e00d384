/** An inbound burst leaves in memory exactly what a plain copying loop would, although stale words
    are written all the while. */
module BurstCorrect {
  import opened Words
  import opened WbBurst

  // ------------------------------------------------------- the plain copy

  /** The outside world: the word at each bus address. */
  type External = BusAddr -> Dword

  /** A burst as requested. */
  datatype Job = Job(ext: BusAddr, start: Addr, len: Addr, flags: Flags) {
    /** The number of transfers: at least one. */
    function Total(): nat {
      if len / 4 == 0 then 1 else len / 4
    }

    function BusAt(k: nat): BusAddr {
      if k == 0 then ext else if flags.incExt then NextBusAddr(BusAt(k - 1)) else BusAt(k - 1)
    }

    function CellAt(k: nat): Addr {
      if k == 0 then start else if flags.incInt then Plus(CellAt(k - 1), 2) else CellAt(k - 1)
    }
  }

  /** The memory after copying the first `k` words one after the other. */
  function Copied(m: Cells, x: External, j: Job, k: nat): Cells {
    if k == 0 then m else PutPair(Copied(m, x, j, k - 1), j.CellAt(k - 1), x(j.BusAt(k - 1)))
  }

  // -------------------------------------------------------- the invariant

  /** The memory is the copy so far, but for what lies at the current cell. */
  ghost predicate Dirty(now: Cells, clean: Cells, at: Addr) {
    now == clean || exists d: Dword :: now == PutPair(clean, at, d)
  }

  lemma PutPairTwice(m: Cells, at: Addr, d: Dword, d': Dword)
    ensures PutPair(PutPair(m, at, d), at, d') == PutPair(m, at, d')
  {
  }

  lemma DirtyPut(now: Cells, clean: Cells, at: Addr, d: Dword)
    requires Dirty(now, clean, at)
    ensures PutPair(now, at, d) == PutPair(clean, at, d)
  {
    if now != clean {
      var e: Dword :| now == PutPair(clean, at, e);
      PutPairTwice(clean, at, e, d);
    }
  }

  /** The memory a burst goes to, and the other one. */
  function Target(j: Job, m: Memories): Cells {
    if j.flags.imem then m.imem else m.dmem
  }

  function Other(j: Job, m: Memories): Cells {
    if j.flags.imem then m.dmem else m.imem
  }

  /** The engine with `k` words of the job behind it and more to come. */
  ghost predicate Underway(j: Job, k: nat, s: Regs) {
    && k < j.Total()
    && (s.state.Burst? || s.state.Burst0? || s.state.Burst1? || s.state.BackOff?)
    && s.bus.cyc == s.bus.stb && (s.bus.cyc ==> s.state.Burst1?)
    && s.bus.adr == j.BusAt(k) && s.burst.intAddr == j.CellAt(k) && s.burst.flags == j.flags
    && s.burst.len == j.len / 4 - k
    && s.burst.dmemWrite == !j.flags.imem && s.burst.imemWrite == j.flags.imem
    && !s.bus.we && !s.ack
  }

  ghost predicate Finished(s: Regs) {
    && s.state.Idle? && s.ack && !s.bus.cyc && !s.bus.stb
    && !s.burst.dmemWrite && !s.burst.imemWrite && !s.burst.dmemRead
  }

  ghost predicate Inbound(j: Job) {
    !j.flags.writeExt
  }

  /** The bus acknowledges only while it is addressed, and then presents the addressed word. */
  ghost predicate Fair(x: External, s: Regs, i: Input) {
    i.ack ==> s.bus.cyc && s.bus.stb && i.data == x(s.bus.adr)
  }

  lemma EngineStep(j: Job, k: nat, s: Regs, i: Input)
    requires Inbound(j) && Underway(j, k, s) && (i.ack ==> s.bus.cyc)
    ensures if !i.ack then Underway(j, k, Step(s, i))
            else if k + 1 < j.Total() then Underway(j, k + 1, Step(s, i))
            else Finished(Step(s, i))
  {
  }

  lemma MemoryStep(j: Job, k: nat, s: Regs, i: Input, m: Memories, m0: Memories, x: External)
    requires Inbound(j) && Underway(j, k, s) && Fair(x, s, i)
    requires Dirty(Target(j, m), Copied(Target(j, m0), x, j, k), j.CellAt(k))
    ensures Other(j, StepMemories(m, s, i)) == Other(j, m)
    ensures var t := Target(j, StepMemories(m, s, i));
      if i.ack then t == Copied(Target(j, m0), x, j, k + 1)
      else Dirty(t, Copied(Target(j, m0), x, j, k), j.CellAt(k))
  {
    DirtyPut(Target(j, m), Copied(Target(j, m0), x, j, k), j.CellAt(k), i.data);
  }

  // ------------------------------------------------------------ whole runs

  datatype System = System(regs: Regs, memories: Memories)

  function Cycle(s: System, i: Input): System {
    System(Step(s.regs, i), StepMemories(s.memories, s.regs, i))
  }

  function Run(s: System, es: seq<Input>): System {
    if es == [] then s else Cycle(Run(s, es[..|es| - 1]), es[|es| - 1])
  }

  ghost predicate FairRun(x: External, s: System, es: seq<Input>) {
    es == [] || (FairRun(x, s, es[..|es| - 1]) && Fair(x, Run(s, es[..|es| - 1]).regs, es[|es| - 1]))
  }

  function Acks(es: seq<Input>): nat {
    if es == [] then 0 else Acks(es[..|es| - 1]) + (if es[|es| - 1].ack then 1 else 0)
  }

  /** The system with `k` words copied and more to come. */
  ghost predicate Copying(j: Job, x: External, m0: Memories, k: nat, t: System) {
    && Underway(j, k, t.regs)
    && Dirty(Target(j, t.memories), Copied(Target(j, m0), x, j, k), j.CellAt(k))
    && Other(j, t.memories) == Other(j, m0)
  }

  /** The system with all words copied. */
  ghost predicate Done(j: Job, x: External, m0: Memories, t: System) {
    && Finished(t.regs)
    && Target(j, t.memories) == Copied(Target(j, m0), x, j, j.Total())
    && Other(j, t.memories) == Other(j, m0)
  }

  lemma CycleCopies(j: Job, x: External, m0: Memories, k: nat, t: System, i: Input)
    requires Inbound(j) && Copying(j, x, m0, k, t) && Fair(x, t.regs, i)
    ensures if !i.ack then Copying(j, x, m0, k, Cycle(t, i))
            else if k + 1 < j.Total() then Copying(j, x, m0, k + 1, Cycle(t, i))
            else Done(j, x, m0, Cycle(t, i))
  {
    EngineStep(j, k, t.regs, i);
    MemoryStep(j, k, t.regs, i, t.memories, m0, x);
  }

  /** While acknowledgements are outstanding the burst goes on; what it has copied stays. */
  lemma {:induction false} BurstGoesOn(j: Job, x: External, s: System, es: seq<Input>)
    requires Inbound(j) && Underway(j, 0, s.regs) && FairRun(x, s, es) && Acks(es) < j.Total()
    ensures Copying(j, x, s.memories, Acks(es), Run(s, es))
  {
    if es != [] {
      BurstGoesOn(j, x, s, es[..|es| - 1]);
      CycleCopies(j, x, s.memories, Acks(es[..|es| - 1]), Run(s, es[..|es| - 1]), es[|es| - 1]);
    }
  }

  /** With the last acknowledgement the engine is back to idle, tells the core, and the memory is what
      the plain copy makes of it; the other memory is untouched. */
  lemma {:induction false} BurstEnds(j: Job, x: External, s: System, es: seq<Input>)
    requires Inbound(j) && Underway(j, 0, s.regs) && FairRun(x, s, es)
    requires es != [] && es[|es| - 1].ack && Acks(es) == j.Total()
    ensures Done(j, x, s.memories, Run(s, es))
  {
    BurstGoesOn(j, x, s, es[..|es| - 1]);
    CycleCopies(j, x, s.memories, Acks(es[..|es| - 1]), Run(s, es[..|es| - 1]), es[|es| - 1]);
  }

  /** The engine addresses the bus again after at most three cycles without an acknowledgement. */
  lemma {:induction false} BusIsAddressed(j: Job, k: nat, s: Regs, a: Input, b: Input, c: Input)
    requires Inbound(j) && Underway(j, k, s) && !a.ack && !b.ack && !c.ack
    ensures Step(Step(Step(s, a), b), c).bus.cyc
  {
  }

  // ------------------------------------------------- what the copy amounts to

  lemma {:induction false} CellsAhead(j: Job, k: nat)
    requires j.flags.incInt && j.start + 2 * k < WORD_SPAN
    ensures j.CellAt(k) == j.start + 2 * k
  {
    if k > 0 {
      CellsAhead(j, k - 1);
    }
  }

  lemma NextBus(a: int)
    ensures NextBusAddr(a % BUS_SPAN) == (a + 4) % BUS_SPAN
  {
  }

  lemma {:induction false} BusAhead(j: Job, k: nat)
    requires j.flags.incExt
    ensures j.BusAt(k) == (j.ext + 4 * k) % BUS_SPAN
  {
    if k > 0 {
      BusAhead(j, k - 1);
      NextBus(j.ext + 4 * (k - 1));
    }
  }

  /** Pair `p` of a memory. */
  function PairAt(m: Cells, p: nat): Dword
    requires 2 * p + 1 < WORD_SPAN
  {
    Dword(m[2 * p], m[2 * p + 1])
  }

  lemma PairPut(m: Cells, a: Addr, d: Dword, p: nat)
    requires 2 * p + 1 < WORD_SPAN
    ensures PairAt(PutPair(m, a, d), p) == if p == a / 2 then d else PairAt(m, p)
  {
  }

  /** With both increments the copy lays the external words one after the other, and leaves all other
      words alone. */
  lemma {:induction false} CopyLaysOut(m: Cells, x: External, j: Job, k: nat, p: nat)
    requires j.flags.incInt && j.flags.incExt && j.start + 2 * k <= WORD_SPAN && 2 * p + 1 < WORD_SPAN
    ensures var first := j.start / 2;
      PairAt(Copied(m, x, j, k), p)
      == if first <= p < first + k then x((j.ext + 4 * (p - first)) % BUS_SPAN) else PairAt(m, p)
  {
    if k > 0 {
      CopyLaysOut(m, x, j, k - 1, p);
      CellsAhead(j, k - 1);
      BusAhead(j, k - 1);
      PairPut(Copied(m, x, j, k - 1), j.CellAt(k - 1), x(j.BusAt(k - 1)), p);
    }
  }

  /** What a finished burst has made of pair `p`. */
  ghost predicate LaidOut(j: Job, x: External, m0: Memories, t: System, p: nat)
    requires 2 * p + 1 < WORD_SPAN
  {
    var first := j.start / 2;
    && PairAt(Target(j, t.memories), p)
       == (if first <= p < first + j.Total() then x((j.ext + 4 * (p - first)) % BUS_SPAN)
           else PairAt(Target(j, m0), p))
    && PairAt(Other(j, t.memories), p) == PairAt(Other(j, m0), p)
  }

  lemma BurstLaysOut(j: Job, x: External, s: System, es: seq<Input>, p: nat)
    requires Inbound(j) && j.flags.incInt && j.flags.incExt && j.start + 2 * j.Total() <= WORD_SPAN
    requires Underway(j, 0, s.regs) && FairRun(x, s, es)
    requires es != [] && es[|es| - 1].ack && Acks(es) == j.Total() && 2 * p + 1 < WORD_SPAN
    ensures Finished(Run(s, es).regs) && LaidOut(j, x, s.memories, Run(s, es), p)
  {
    BurstEnds(j, x, s, es);
    CopyLaysOut(Target(j, s.memories), x, j, j.Total(), p);
  }

  /** The state a burst request leads to from idle. */
  function Started(s: System, j: Job, i: Input): System
    requires s.regs.state.Idle?
  {
    Cycle(s, i.(request := BurstRequest(j.ext, j.start, j.len, j.flags)))
  }

  lemma StartedUnderway(j: Job, s: System, i: Input)
    requires Inbound(j) && s.regs.state.Idle? && !s.regs.burst.dmemWrite && !s.regs.burst.imemWrite
    ensures Underway(j, 0, Started(s, j, i).regs) && Started(s, j, i).memories == s.memories
  {
  }

  /** An inbound burst with both increments and no wrap-around of the internal address, whatever the
      acknowledge delays: after exactly max(1, len >> 2) acknowledgements it is over, every pair of the
      memory it goes to is the external word with the same position, and all else is unchanged. */
  lemma InboundBurstExact(j: Job, x: External, s: System, i: Input, es: seq<Input>, p: nat)
    requires Inbound(j) && j.flags.incInt && j.flags.incExt && j.start + 2 * j.Total() <= WORD_SPAN
    requires s.regs.state.Idle? && !s.regs.burst.dmemWrite && !s.regs.burst.imemWrite
    requires FairRun(x, Started(s, j, i), es) && es != [] && es[|es| - 1].ack && Acks(es) == j.Total()
    requires 2 * p + 1 < WORD_SPAN
    ensures Finished(Run(Started(s, j, i), es).regs)
    ensures LaidOut(j, x, s.memories, Run(Started(s, j, i), es), p)
  {
    StartedUnderway(j, s, i);
    BurstLaysOut(j, x, Started(s, j, i), es, p);
  }

  /** The job a boot from outside amounts to. */
  ghost predicate IsBoot(j: Job) {
    j.ext == 0xD000_0000 && j.start == 0 && j.len == 0x100 && j.flags == Flags(true, true, false, true, false)
  }

  lemma BootUnderway(j: Job, power: Regs)
    requires IsBoot(j)
    ensures Underway(j, 0, Reset(power, true)) && j.Total() == 64
  {
  }

  /** Booting fills the first 64 pairs of the instruction memory with the external words from the boot
      address on, and touches nothing else. */
  lemma BootExact(j: Job, power: Regs, m: Memories, x: External, es: seq<Input>, p: nat)
    requires IsBoot(j) && FairRun(x, System(Reset(power, true), m), es)
    requires es != [] && es[|es| - 1].ack && Acks(es) == j.Total() && 2 * p + 1 < WORD_SPAN
    ensures Finished(Run(System(Reset(power, true), m), es).regs)
    ensures LaidOut(j, x, m, Run(System(Reset(power, true), m), es), p)
  {
    BootUnderway(j, power);
    BurstLaysOut(j, x, System(Reset(power, true), m), es, p);
  }
}

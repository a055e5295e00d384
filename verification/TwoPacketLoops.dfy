/** What the core makes of a hardware loop of two packets, whose end label is on its first packet. The
    programming rules exclude it: here is how often its body executes. */
module TwoPacketLoops {
  import opened Words
  import opened Vliwfetch
  import opened Pcu
  import Core
  import opened CoreRefinement
  import opened CoreFlow
  import opened IsaFlow

  // -------------------------------------------------------- quiet cycles

  /** No interrupt, and the program does not write the loop counter. */
  predicate Quiet(e: Env) {
    e.clkEn && !e.irq && !e.write.WriteLoopCount?
  }

  predicate AllQuiet(es: seq<Env>) {
    forall i :: 0 <= i < |es| ==> Quiet(es[i])
  }

  /** Nothing is in flight, and the instruction in the pipe asks for no jump. */
  predicate Steady(r: PcuRegs) {
    && !r.slots.kill && !r.slots.irq0 && !r.slots.irq1
    && (Sequential(r.pipe.inst0) || r.pipe.inst0.IsBkrep())
  }

  function LoopJump(l: Loop, pc: Addr): Option<Addr> {
    if AtLoopEnd(l, pc) then Some(l.begin) else None
  }

  lemma SteadyControl(r: PcuRegs, e: Env, pc: Addr)
    requires Steady(r) && Quiet(e)
    ensures var ctl := ControlOf(r, e, pc);
      ctl.jump == LoopJump(r.loop, pc) && !ctl.irqAck && ctl.reqSlots == 2 && !Invalidates(r, ctl)
  {
  }

  /** The core stands at `p` of the plain fetcher, with these loop registers. */
  ghost predicate Stands(m: Image, c: Core.State, p: Plain, l: Loop) {
    Refines(m, c.fetch, p) && Steady(c.pcu) && c.pcu.loop == l
  }

  function InstAt(m: Image, p: Plain): Inst {
    if Shows(p) then ProgramOf(m)(PcOf(p)).inst else NOP
  }

  /** A quiet cycle: the packet shown executes, and only a loop end redirects. */
  lemma QuietCycle(m: Image, c: Core.State, p: Plain, l: Loop, e: Env)
    requires Stands(m, c, p, l) && Quiet(e) && Sequential(InstAt(m, p))
    ensures var t, pc := Core.Step(m, c, e), PcOf(p);
      && Stands(m, t, PlainStep(m, p, Input(true, LoopJump(l, pc))), NextLoop(l, c.pcu.pipe.inst0, e, false, pc))
      && OnePacket(c, e) == (if Shows(p) then [pc] else [])
      && t.pcu.pipe.inst0 == InstAt(m, p)
  {
    CoreMoves(m, c, p, e);
    SteadyControl(c.pcu, e, PcOf(p));
  }

  lemma NextLoopSequential(l: Loop, w: Inst, e: Env, pc: Addr)
    requires Sequential(w) && Quiet(e)
    ensures NextLoop(l, w, e, false, pc) == if AtLoopEnd(l, pc) then l.(count := l.count - 1) else l
  {
  }

  /** The last cycle of a run. */
  lemma RunLast(m: Image, c: Core.State, es: seq<Env>, e: Env)
    requires WellTyped(c.fetch)
    ensures Core.Run(m, c, es + [e]) == Core.Step(m, Core.Run(m, c, es), e)
    ensures Core.Trace(m, c, es + [e]) == Core.Trace(m, c, es) + OnePacket(Core.Run(m, c, es), e)
  {
    assert (es + [e])[..|es + [e]| - 1] == es;
    TraceLast(m, c, es, e);
  }

  lemma NoCycles(m: Image, c: Core.State)
    requires WellTyped(c.fetch)
    ensures Core.Run(m, c, []) == c && Core.Trace(m, c, []) == []
  {
  }

  // ------------------------------------------------- two packets and a label

  function Second(m: Image, b: Addr): Addr {
    After(m, b)
  }

  /** The packet after the body. */
  function Beyond(m: Image, b: Addr): Addr {
    After(m, After(m, b))
  }

  /** A body of two sequential packets from `b`. */
  predicate Pair(m: Image, b: Addr) {
    Sequential(ProgramOf(m)(b).inst) && Sequential(ProgramOf(m)(Second(m, b)).inst) && Second(m, b) != b
  }

  /** Where the fetcher is once it has left for `target`. */
  function Arriving(target: Addr): Plain {
    if target % 4 == 0 then At(target) else Waiting(target)
  }

  /** After the first packet: on to the second, with the jump of a loop end under way or not. */
  function AfterFirst(m: Image, b: Addr, l: Loop): Plain {
    if AtLoopEnd(l, b) then Leaving(Second(m, b), l.begin) else At(Second(m, b))
  }

  function AfterSecond(m: Image, b: Addr, l: Loop): Plain {
    if AtLoopEnd(l, b) then Arriving(l.begin) else At(Beyond(m, b))
  }

  /** The loop registers after the body. A `bkrep` still in the pipe sets them with the first packet, and
      keeps the turn from being counted. */
  function LoopAfter(b: Addr, l: Loop, w: Inst): Loop {
    if w.IsBkrep() then Loop(b, b, l.count)
    else if AtLoopEnd(l, b) then l.(count := l.count - 1)
    else l
  }

  /** The body's first packet is next: `bkrep` has just executed, or the loop goes on. */
  ghost predicate AtBody(m: Image, c: Core.State, b: Addr, l: Loop) {
    && Pair(m, b) && Stands(m, c, At(b), l)
    && (if c.pcu.pipe.inst0.IsBkrep() then c.pcu.pipe.inst0.imm == b else l.end == b)
  }

  lemma FirstPacket(m: Image, c: Core.State, b: Addr, l: Loop, e: Env)
    requires AtBody(m, c, b, l) && Quiet(e)
    ensures var t, k := Core.Step(m, c, e), LoopAfter(b, l, c.pcu.pipe.inst0);
      && Stands(m, t, AfterFirst(m, b, l), k) && Sequential(t.pcu.pipe.inst0) && k.end == b
    ensures OnePacket(c, e) == [b]
  {
    QuietCycle(m, c, At(b), l, e);
    if !c.pcu.pipe.inst0.IsBkrep() {
      NextLoopSequential(l, c.pcu.pipe.inst0, e, b);
    }
  }

  lemma SecondPacket(m: Image, c: Core.State, b: Addr, l: Loop, k: Loop, e: Env)
    requires Pair(m, b) && Stands(m, c, AfterFirst(m, b, l), k) && k.end == b
    requires Sequential(c.pcu.pipe.inst0) && Quiet(e)
    ensures var t := Core.Step(m, c, e);
      Stands(m, t, AfterSecond(m, b, l), k) && Sequential(t.pcu.pipe.inst0)
    ensures OnePacket(c, e) == [Second(m, b)]
  {
    QuietCycle(m, c, AfterFirst(m, b, l), k, e);
    NextLoopSequential(k, c.pcu.pipe.inst0, e, Second(m, b));
  }

  /** The body once: both packets execute, and then it depends on what the loop registers said before
      the first of them. */
  lemma BodyOnce(m: Image, c: Core.State, b: Addr, l: Loop, e: Env, e': Env)
    requires AtBody(m, c, b, l) && Quiet(e) && Quiet(e')
    ensures Core.Trace(m, c, [e, e']) == [b, Second(m, b)]
    ensures var t := Core.Run(m, c, [e, e']);
      Sequential(t.pcu.pipe.inst0) && Stands(m, t, AfterSecond(m, b, l), LoopAfter(b, l, c.pcu.pipe.inst0))
  {
    NoCycles(m, c);
    RunLast(m, c, [], e);
    RunLast(m, c, [e], e');
    assert [] + [e] == [e] && [e] + [e'] == [e, e'];
    FirstPacket(m, c, b, l, e);
    SecondPacket(m, Core.Step(m, c, e), b, l, LoopAfter(b, l, c.pcu.pipe.inst0), e');
  }

  // ------------------------------------------------------------- all turns

  /** The counter when the first packet is next again: it is counted a second time in the cycle that an
      unaligned address costs. */
  function CountAfter(b: Addr, count: nat): nat {
    if b % 4 == 0 || count == 0 then count else count - 1
  }

  /** The cycles to come back to the first packet. */
  function ReturnCycles(b: Addr): nat {
    if b % 4 == 0 then 0 else 1
  }

  /** How often the body executes from a counted start, and in how many cycles. */
  function PairTurns(b: Addr, count: nat): nat {
    if count == 0 then 1 else 1 + PairTurns(b, CountAfter(b, count - 1))
  }

  function PairCycles(b: Addr, count: nat): nat {
    if count == 0 then 2 else 2 + ReturnCycles(b) + PairCycles(b, CountAfter(b, count - 1))
  }

  /** The cycles `es` execute the packets `trace` and lead to `d`. */
  ghost predicate Makes(m: Image, c: Core.State, es: seq<Env>, trace: seq<Addr>, d: Core.State) {
    WellTyped(c.fetch) && WellTyped(d.fetch) && Core.Trace(m, c, es) == trace && Core.Run(m, c, es) == d
  }

  lemma MakesSum(
      m: Image, c: Core.State, a: seq<Env>, b: seq<Env>, x: seq<Addr>, d: Core.State, y: seq<Addr>, f: Core.State)
    requires Makes(m, c, a, x, d) && Makes(m, d, b, y, f)
    ensures Makes(m, c, a + b, x + y, f)
  {
    RunAppend(m, c, a, b);
  }

  lemma Split(es: seq<Env>, k: nat)
    requires k <= |es|
    ensures es == es[..k] + es[k..]
  {
  }

  lemma MakesBoth(
      m: Image, c: Core.State, es: seq<Env>, a: seq<Env>, b: seq<Env>,
      x: seq<Addr>, d: Core.State, y: seq<Addr>, f: Core.State)
    requires es == a + b && Makes(m, c, a, x, d) && Makes(m, d, b, y, f)
    ensures Makes(m, c, es, x + y, f)
  {
    MakesSum(m, c, a, b, x, d, y, f);
  }

  /** The bubble before an unaligned body. */
  lemma Bubble(m: Image, c: Core.State, b: Addr, count: Addr, e: Env)
    requires TurnedBack(m, c, b, count) && b % 4 != 0 && Quiet(e)
    ensures var t := Core.Step(m, c, e);
      OnePacket(c, e) == [] && Turning(m, t, b, CountAfter(b, count))
  {
    QuietCycle(m, c, Waiting(b), Loop(b, b, count), e);
    NextLoopSequential(Loop(b, b, count), c.pcu.pipe.inst0, e, b);
  }

  lemma MakesOne(m: Image, c: Core.State, es: seq<Env>)
    requires WellTyped(c.fetch) && |es| == 1
    ensures Makes(m, c, es, OnePacket(c, es[0]), Core.Step(m, c, es[0]))
  {
    NoCycles(m, c);
    RunLast(m, c, [], es[0]);
    assert [] + [es[0]] == es;
  }

  /** Back at the first packet, with the bubble if there is one. */
  lemma ComesBack(m: Image, c: Core.State, b: Addr, count: Addr, es: seq<Env>) returns (d: Core.State)
    requires TurnedBack(m, c, b, count) && |es| == ReturnCycles(b) && AllQuiet(es)
    ensures Makes(m, c, es, [], d) && Turning(m, d, b, CountAfter(b, count))
  {
    if es == [] {
      d := c;
      NoCycles(m, c);
    } else {
      d := Core.Step(m, c, es[0]);
      MakesOne(m, c, es);
      Bubble(m, c, b, count, es[0]);
    }
  }

  /** At the start of a turn that is counted. */
  ghost predicate Turning(m: Image, c: Core.State, b: Addr, count: Addr) {
    AtBody(m, c, b, Loop(b, b, count)) && Sequential(c.pcu.pipe.inst0)
  }

  /** Out of the loop behind the body. */
  ghost predicate Left(m: Image, c: Core.State, b: Addr, count: Addr) {
    Stands(m, c, At(Beyond(m, b)), Loop(b, b, count))
  }

  function TwoPackets(m: Image, b: Addr): seq<Addr> {
    [b, Second(m, b)]
  }

  /** One turn: two cycles. */
  lemma OnePairTurn(m: Image, c: Core.State, b: Addr, l: Loop, es: seq<Env>) returns (d: Core.State)
    requires AtBody(m, c, b, l) && |es| == 2 && AllQuiet(es)
    ensures Makes(m, c, es, TwoPackets(m, b), d) && Sequential(d.pcu.pipe.inst0)
    ensures Stands(m, d, AfterSecond(m, b, l), LoopAfter(b, l, c.pcu.pipe.inst0))
  {
    assert es == [es[0], es[1]];
    BodyOnce(m, c, b, l, es[0], es[1]);
    d := Core.Run(m, c, es);
  }

  lemma LastTurn(m: Image, c: Core.State, b: Addr, es: seq<Env>) returns (d: Core.State)
    requires Turning(m, c, b, 0) && |es| == 2 && AllQuiet(es)
    ensures Makes(m, c, es, TwoPackets(m, b), d) && Left(m, d, b, 0)
  {
    d := OnePairTurn(m, c, b, Loop(b, b, 0), es);
  }

  /** A counted turn that jumps back. */
  lemma CountedTurn(m: Image, c: Core.State, b: Addr, count: Addr, es: seq<Env>) returns (d: Core.State)
    requires Turning(m, c, b, count) && count > 0 && |es| == 2 && AllQuiet(es)
    ensures Makes(m, c, es, TwoPackets(m, b), d) && TurnedBack(m, d, b, count - 1)
  {
    d := OnePairTurn(m, c, b, Loop(b, b, count), es);
  }

  /** The jump back has been made. */
  ghost predicate TurnedBack(m: Image, c: Core.State, b: Addr, count: Addr) {
    Pair(m, b) && Stands(m, c, Arriving(b), Loop(b, b, count)) && Sequential(c.pcu.pipe.inst0)
  }

  lemma {:induction false} AllPairTurns(m: Image, c: Core.State, b: Addr, count: Addr, es: seq<Env>)
    returns (d: Core.State)
    requires Turning(m, c, b, count) && |es| == PairCycles(b, count) && AllQuiet(es)
    ensures Makes(m, c, es, Times(TwoPackets(m, b), PairTurns(b, count)), d) && Left(m, d, b, 0)
    decreases count, 0
  {
    if count == 0 {
      d := LastTurn(m, c, b, es);
      OnceTimes(TwoPackets(m, b));
    } else {
      var turn, rest := es[..2], es[2..];
      Split(es, 2);
      d := CountedTurns(m, c, b, count, es, turn, rest);
    }
  }

  /** A turn that jumps back, and all the turns after it. */
  lemma {:induction false} TurnThenRest(
      m: Image, c: Core.State, b: Addr, count: Addr, es: seq<Env>, turn: seq<Env>, rest: seq<Env>, turned: Core.State)
    returns (d: Core.State)
    requires es == turn + rest && Makes(m, c, turn, TwoPackets(m, b), turned) && TurnedBack(m, turned, b, count)
    requires |rest| == ReturnCycles(b) + PairCycles(b, CountAfter(b, count)) && AllQuiet(rest)
    ensures Makes(m, c, es, TwoPackets(m, b) + Times(TwoPackets(m, b), PairTurns(b, CountAfter(b, count))), d)
    ensures Left(m, d, b, 0)
    decreases count, 2
  {
    d := GoesOn(m, turned, b, count, rest);
    var more := Times(TwoPackets(m, b), PairTurns(b, CountAfter(b, count)));
    MakesBoth(m, c, es, turn, rest, TwoPackets(m, b), turned, more, d);
  }

  lemma {:induction false} CountedTurns(
      m: Image, c: Core.State, b: Addr, count: Addr, es: seq<Env>, turn: seq<Env>, rest: seq<Env>)
    returns (d: Core.State)
    requires Turning(m, c, b, count) && count > 0 && |turn| == 2 && AllQuiet(turn) && AllQuiet(rest)
    requires es == turn + rest && |rest| == ReturnCycles(b) + PairCycles(b, CountAfter(b, count - 1))
    ensures Makes(m, c, es, Times(TwoPackets(m, b), PairTurns(b, count)), d) && Left(m, d, b, 0)
    decreases count - 1, 3
  {
    var turned := CountedTurn(m, c, b, count, turn);
    d := TurnThenRest(m, c, b, count - 1, es, turn, rest, turned);
    MoreTurns(TwoPackets(m, b), b, count);
  }

  lemma MoreTurns(s: seq<Addr>, b: Addr, count: Addr)
    requires count > 0
    ensures Times(s, PairTurns(b, count)) == s + Times(s, PairTurns(b, CountAfter(b, count - 1)))
  {
  }

  lemma OnceTimes(s: seq<Addr>)
    ensures Times(s, 1) == s
  {
    assert Times(s, 1) == s + Times(s, 0);
  }

  /** From the end of a turn that jumps back. */
  lemma {:induction false} GoesOn(m: Image, c: Core.State, b: Addr, count: Addr, es: seq<Env>) returns (d: Core.State)
    requires TurnedBack(m, c, b, count)
    requires |es| == ReturnCycles(b) + PairCycles(b, CountAfter(b, count)) && AllQuiet(es)
    ensures Makes(m, c, es, Times(TwoPackets(m, b), PairTurns(b, CountAfter(b, count))), d) && Left(m, d, b, 0)
    decreases count, 1
  {
    var before, rest := es[..ReturnCycles(b)], es[ReturnCycles(b)..];
    Split(es, ReturnCycles(b));
    var back := ComesBack(m, c, b, count, before);
    d := AllPairTurns(m, back, b, CountAfter(b, count), rest);
    var trace := Times(TwoPackets(m, b), PairTurns(b, CountAfter(b, count)));
    assert [] + trace == trace;
    MakesBoth(m, c, es, before, rest, [], back, trace, d);
  }

  // ----------------------------------------------------- from reset, with stalls

  /** The cycles in which the core's clock is enabled. */
  function Enabled(es: seq<Env>): seq<Env> {
    if es == [] then []
    else Enabled(es[..|es| - 1]) + (if es[|es| - 1].clkEn then [es[|es| - 1]] else [])
  }

  /** The others make no difference. */
  lemma {:induction false} StallsDrop(m: Image, c: Core.State, es: seq<Env>)
    requires WellTyped(c.fetch)
    ensures Core.Run(m, c, es) == Core.Run(m, c, Enabled(es)) && Core.Trace(m, c, es) == Core.Trace(m, c, Enabled(es))
  {
    if es != [] {
      var init, e := es[..|es| - 1], es[|es| - 1];
      assert es == init + [e];
      StallsDrop(m, c, init);
      RunLast(m, c, init, e);
      if e.clkEn {
        RunLast(m, c, Enabled(init), e);
      } else {
        assert Core.Trace(m, c, init) + [] == Core.Trace(m, c, init);
        assert Enabled(es) == Enabled(init);
      }
    }
  }

  /** Over every run from reset, legal or not, the fetcher is at some place of the plain one. */
  lemma {:induction false} CoreFetches(m: Image, power: FetchRegs, es: seq<Env>) returns (p: Plain)
    ensures Refines(m, Core.Run(m, Core.Reset(power), es).fetch, p)
  {
    if es == [] {
      ResetRefines(m, power);
      p := Starting(2);
    } else {
      var init, e := es[..|es| - 1], es[|es| - 1];
      var c := Core.Run(m, Core.Reset(power), init);
      var q := CoreFetches(m, power, init);
      var i := Input(e.clkEn, Core.ControlNow(c, e).jump);
      StepRefines(m, c.fetch, q, i);
      p := PlainStep(m, q, i);
    }
  }

  /** The core has come to a two-packet body at `b`: it runs, nothing suppresses the next packet, the
      `bkrep` has just executed, and `l` is what the loop registers still say. */
  ghost predicate Comes(m: Image, power: FetchRegs, prefix: seq<Env>, b: Addr, l: Loop) {
    var c := Core.Run(m, Core.Reset(power), prefix);
    && c.fetch.fetchState == Running && c.fetch.pc == b && c.pcu.loop == l
    && !c.pcu.slots.kill && !c.pcu.slots.irq0 && !c.pcu.slots.irq1
    && c.pcu.pipe.inst0.IsBkrep() && c.pcu.pipe.inst0.imm == b && Pair(m, b)
  }

  lemma ComesAtBody(m: Image, power: FetchRegs, prefix: seq<Env>, b: Addr, l: Loop)
    requires Comes(m, power, prefix, b, l)
    ensures AtBody(m, Core.Run(m, Core.Reset(power), prefix), b, l)
  {
    var p := CoreFetches(m, power, prefix);
    RunningAt(m, Core.Run(m, Core.Reset(power), prefix).fetch, p);
  }

  lemma RunningAt(m: Image, s: FetchRegs, p: Plain)
    requires Refines(m, s, p) && s.fetchState == Running
    ensures p == At(s.pc)
  {
  }

  /** The core executes the body once; then it goes on behind it if and only if the loop registers did not
      say already, from before, that the counter is running and a loop ends there. If they did, it jumps
      to where that loop begins, and the turn is not counted. */
  lemma TwoPacketLoopRunsOnceIff(m: Image, power: FetchRegs, prefix: seq<Env>, es: seq<Env>, b: Addr, l: Loop)
    requires Comes(m, power, prefix, b, l) && |Enabled(es)| == 2 && AllQuiet(Enabled(es))
    ensures RestTrace(m, power, prefix, es) == TwoPackets(m, b)
    ensures var t := Core.Run(m, Core.Reset(power), prefix + es);
      && t.fetch.pc == (if AtLoopEnd(l, b) then l.begin else Beyond(m, b))
      && (t.fetch.pc == Beyond(m, b) <==> !AtLoopEnd(l, b) || l.begin == Beyond(m, b))
      && t.pcu.loop == Loop(b, b, l.count)
  {
    var c := Core.Run(m, Core.Reset(power), prefix);
    ComesAtBody(m, power, prefix, b, l);
    StateAppend(m, Core.Reset(power), prefix, es);
    StallsDrop(m, c, es);
    var d := OnePairTurn(m, c, b, l, Enabled(es));
  }

  /** How often the body executes in all, and in how many enabled cycles, from there. */
  function AllTurnsFrom(b: Addr, l: Loop): nat {
    if AtLoopEnd(l, b) then 1 + PairTurns(b, CountAfter(b, l.count)) else 1
  }

  function AllCyclesFrom(b: Addr, l: Loop): nat {
    if AtLoopEnd(l, b) then 2 + ReturnCycles(b) + PairCycles(b, CountAfter(b, l.count)) else 2
  }

  /** At an aligned address that is the counter and two more: one turn is not counted, the last one is the
      one that falls through. */
  lemma {:induction false} AlignedTurns(b: Addr, count: nat)
    requires b % 4 == 0
    ensures PairTurns(b, count) == count + 1
  {
    if count > 0 {
      AlignedTurns(b, count - 1);
    }
  }

  /** At another address the bubble takes a count as well, so that it is half as often, rounded up, and
      once more. */
  lemma {:induction false} UnalignedTurns(b: Addr, count: nat)
    requires b % 4 != 0
    ensures PairTurns(b, count) == 1 + (count + 1) / 2
    decreases count
  {
    if count > 0 {
      UnalignedTurns(b, CountAfter(b, count - 1));
    }
  }

  /** The first turn where the registers are left over: it is not counted, and jumps back. */
  lemma StaleTurn(m: Image, c: Core.State, b: Addr, l: Loop, turn: seq<Env>) returns (d: Core.State)
    requires AtBody(m, c, b, l) && c.pcu.pipe.inst0.IsBkrep() && AtLoopEnd(l, b) && l.begin == b
    requires |turn| == 2 && AllQuiet(turn)
    ensures Makes(m, c, turn, TwoPackets(m, b), d) && TurnedBack(m, d, b, l.count)
  {
    d := OnePairTurn(m, c, b, l, turn);
  }

  lemma FreshTurn(m: Image, c: Core.State, b: Addr, l: Loop, turn: seq<Env>) returns (d: Core.State)
    requires AtBody(m, c, b, l) && c.pcu.pipe.inst0.IsBkrep() && !AtLoopEnd(l, b)
    requires |turn| == 2 && AllQuiet(turn)
    ensures Makes(m, c, turn, TwoPackets(m, b), d) && Left(m, d, b, l.count)
  {
    d := OnePairTurn(m, c, b, l, turn);
  }

  lemma {:induction false} EnteredTurns(m: Image, c: Core.State, b: Addr, l: Loop, es: seq<Env>) returns (d: Core.State)
    requires AtBody(m, c, b, l) && c.pcu.pipe.inst0.IsBkrep() && (AtLoopEnd(l, b) ==> l.begin == b)
    requires |es| == AllCyclesFrom(b, l) && AllQuiet(es)
    ensures Makes(m, c, es, Times(TwoPackets(m, b), AllTurnsFrom(b, l)), d)
    ensures Left(m, d, b, if AtLoopEnd(l, b) then 0 else l.count)
  {
    if AtLoopEnd(l, b) {
      var turn, rest := es[..2], es[2..];
      Split(es, 2);
      var turned := StaleTurn(m, c, b, l, turn);
      d := TurnThenRest(m, c, b, l.count, es, turn, rest, turned);
    } else {
      d := FreshTurn(m, c, b, l, es);
      OnceTimes(TwoPackets(m, b));
    }
  }

  /** The whole of it, under any stalls: a two-packet body executes exactly once, whatever the counter
      says, if and only if the loop registers were not left over from the same loop with the counter
      running; if they were, it executes once without being counted and then turn by turn, one count a
      turn at an aligned address and two at another. */
  lemma TwoPacketLoopTurns(m: Image, power: FetchRegs, prefix: seq<Env>, es: seq<Env>, b: Addr, l: Loop)
    requires Comes(m, power, prefix, b, l) && (AtLoopEnd(l, b) ==> l.begin == b)
    requires |Enabled(es)| == AllCyclesFrom(b, l) && AllQuiet(Enabled(es))
    ensures RestTrace(m, power, prefix, es) == Times(TwoPackets(m, b), AllTurnsFrom(b, l))
    ensures var t := Core.Run(m, Core.Reset(power), prefix + es);
      t.fetch.pc == Beyond(m, b) && t.pcu.loop == Loop(b, b, if AtLoopEnd(l, b) then 0 else l.count)
    ensures AllTurnsFrom(b, l) == 1 <==> !AtLoopEnd(l, b)
    ensures AtLoopEnd(l, b) ==> AllTurnsFrom(b, l) == 2 + (if b % 4 == 0 then l.count else l.count / 2)
  {
    var c := Core.Run(m, Core.Reset(power), prefix);
    ComesAtBody(m, power, prefix, b, l);
    StateAppend(m, Core.Reset(power), prefix, es);
    StallsDrop(m, c, es);
    var d := EnteredTurns(m, c, b, l, Enabled(es));
    if b % 4 == 0 {
      AlignedTurns(b, l.count);
    } else {
      UnalignedTurns(b, CountAfter(b, l.count));
    }
  }
}

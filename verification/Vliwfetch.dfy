/** The instruction fetcher of rtl/verilog/vliwfetch.v with the registered instruction memory of
    rtl/verilog/imem.v, and the plain machine it refines. */
module Vliwfetch {
  import opened Words
  import opened Vliwdec

  // ---------------------------------------------------------------- memory

  /** The 16-bit words of the instruction memory, fixed for a run. */
  type Image = Addr -> bv16

  /** What the plain machine sees: the four words from `pc` on. */
  function WordsAt(m: Image, pc: Addr): Quad {
    Quad(m(pc), m(Plus(pc, 1)), m(Plus(pc, 2)), m(Plus(pc, 3)))
  }

  const LINES := 0x4000

  /** The 64-bit line `line` of the instruction memory. */
  function Line(m: Image, line: nat): Quad
    requires line < LINES
  {
    WordsAt(m, 4 * line)
  }

  function NextLine(line: nat): nat
    requires line < LINES
  {
    (line + 1) % LINES
  }

  function BundleAt(m: Image, pc: Addr): Bundle {
    Decode(WordsAt(m, pc))
  }

  // ------------------------------------------------------------- registers

  datatype FetchState = Priming0 | Priming1 | Running | Jumping

  datatype FetchRegs = FetchRegs(
    fetchState: FetchState,
    insnOnTop: bool,
    queue: Quad,          // instmem_64_1, the older entry of the aligner queue
    instOut: Quad,        // instmem_64_0, the output register of the memory
    pc: Addr,
    jumpPc: Addr,
    fetchAddress: nat)

  ghost predicate WellTyped(s: FetchRegs) {
    s.fetchAddress < LINES
  }

  /** One clock cycle's inputs: the clock enable and the jump request of the control unit. */
  datatype Input = Input(clkEn: bool, jump: Option<Addr>)

  /** The word multiplexer in front of the decoder. */
  function Inst64(s: FetchRegs): Quad {
    var lo, hi := s.queue, s.instOut;
    if s.pc % 4 == 0 && s.insnOnTop then hi
    else if s.pc % 4 == 0 then lo
    else if s.pc % 4 == 1 then Quad(lo.w1, lo.w2, lo.w3, hi.w0)
    else if s.pc % 4 == 2 then Quad(lo.w2, lo.w3, hi.w0, hi.w1)
    else Quad(lo.w3, hi.w0, hi.w1, hi.w2)
  }

  function NextPc(s: FetchRegs): Addr {
    Plus(s.pc, Decode(Inst64(s)).len)
  }

  predicate FetchEnable(s: FetchRegs) {
    || (NextPc(s) / 4) % 2 != (s.pc / 4) % 2
    || s.fetchState != Running
    || (s.fetchState == Running && s.insnOnTop && NextPc(s) % 4 != 0)
  }

  /** The decoder outputs are passed on only in these two states. */
  predicate Issues(s: FetchRegs) {
    s.fetchState == Running || s.fetchState == Jumping
  }

  function Reset(s: FetchRegs): FetchRegs {
    FetchRegs(Priming0, false, Quad(0, 0, 0, 0), s.instOut, 0, 0, 0)
  }

  /** One rising clock edge. */
  function Step(m: Image, s: FetchRegs, i: Input): FetchRegs
    requires WellTyped(s)
  {
    if !i.clkEn then
      s
    else
      var shifted := if FetchEnable(s)
                     then s.(queue := s.instOut, instOut := Line(m, s.fetchAddress))
                     else s;
      match s.fetchState
      case Priming0 =>
        shifted.(fetchAddress := NextLine(s.fetchAddress), fetchState := Priming1)
      case Priming1 =>
        shifted.(fetchAddress := NextLine(s.fetchAddress), fetchState := Running)
      case Jumping =>
        shifted.(fetchAddress := NextLine(s.fetchAddress),
                 pc := s.jumpPc,
                 fetchState := if s.jumpPc % 4 == 0 then Running else Priming1,
                 insnOnTop := s.jumpPc % 4 == 0)
      case Running =>
        var moved := shifted.(pc := NextPc(s), insnOnTop := s.insnOnTop && NextPc(s) % 4 == 0);
        match i.jump
        case Some(target) =>
          moved.(jumpPc := target, fetchAddress := target / 4, fetchState := Jumping)
        case None =>
          if FetchEnable(s) then moved.(fetchAddress := NextLine(s.fetchAddress)) else moved
  }

  /** The clocked block itself: registers updated in place, one method call a clock edge. */
  class Fetcher {
    var fetchState: FetchState
    var insnOnTop: bool
    var queue: Quad
    var instOut: Quad
    var pc: Addr
    var jumpPc: Addr
    var fetchAddress: nat

    function State(): FetchRegs
      reads this
    {
      FetchRegs(fetchState, insnOnTop, queue, instOut, pc, jumpPc, fetchAddress)
    }

    /** The memory output register holds anything when the machine is switched on. */
    constructor (garbage: Quad)
      ensures State() == Reset(State()) && instOut == garbage && WellTyped(State())
    {
      fetchState, insnOnTop, queue, instOut := Priming0, false, Quad(0, 0, 0, 0), garbage;
      pc, jumpPc, fetchAddress := 0, 0, 0;
    }

    method Clock(m: Image, i: Input)
      requires WellTyped(State())
      modifies this
      ensures State() == Step(m, old(State()), i) && WellTyped(State())
    {
      if !i.clkEn {
        return;
      }
      var nextPc, enable := NextPc(State()), FetchEnable(State());
      var state, address := fetchState, fetchAddress;
      if enable {
        queue := instOut;
        instOut := Line(m, address);
      }
      match state {
        case Priming0 =>
          fetchAddress := NextLine(address);
          fetchState := Priming1;
        case Priming1 =>
          fetchAddress := NextLine(address);
          fetchState := Running;
        case Jumping =>
          fetchAddress := NextLine(address);
          pc := jumpPc;
          if jumpPc % 4 == 0 {
            fetchState := Running;
            insnOnTop := true;
          } else {
            fetchState := Priming1;
            insnOnTop := false;
          }
        case Running =>
          pc := nextPc;
          if insnOnTop && nextPc % 4 != 0 {
            insnOnTop := false;
          }
          if i.jump.Some? {
            jumpPc := i.jump.value;
            fetchAddress := i.jump.value / 4;
            fetchState := Jumping;
          } else if enable {
            fetchAddress := NextLine(address);
          }
      }
    }
  }

  // -------------------------------------------------------- plain machine

  /** What the fetcher is meant to be: a program counter that reads the image directly.
      An accepted jump lets one more packet out; an unaligned target then costs one cycle. */
  datatype Plain =
    | Starting(left: nat)
    | At(pc: Addr)
    | Leaving(pc: Addr, target: Addr)
    | Waiting(pc: Addr)

  /** One cycle, given the address after the packet shown. */
  function PlainMove(p: Plain, next: Addr, i: Input): Plain {
    if !i.clkEn then
      p
    else
      match p
      case Starting(left) => if left > 1 then Starting(left - 1) else At(0)
      case At(pc) =>
        (match i.jump
         case Some(target) => Leaving(next, target)
         case None => At(next))
      case Leaving(_, target) => if target % 4 == 0 then At(target) else Waiting(target)
      case Waiting(pc) => At(pc)
  }

  /** Where the program counter stands in each phase. */
  function PcOf(p: Plain): Addr {
    match p
    case Starting(_) => 0
    case At(pc) => pc
    case Leaving(pc, _) => pc
    case Waiting(pc) => pc
  }

  predicate Shows(p: Plain) {
    p.At? || p.Leaving?
  }

  function After(m: Image, pc: Addr): Addr {
    Plus(pc, BundleAt(m, pc).len)
  }

  function PlainStep(m: Image, p: Plain, i: Input): Plain {
    PlainMove(p, After(m, PcOf(p)), i)
  }

  /** The packet a cycle hands to the dispatcher. */
  function PlainIssue(m: Image, p: Plain): Option<(Addr, Quad)> {
    if Shows(p) then Some((PcOf(p), WordsAt(m, PcOf(p)))) else None
  }

  function Issue(s: FetchRegs): Option<(Addr, Quad)> {
    if Issues(s) then Some((s.pc, Inst64(s))) else None
  }

  /** The queue invariant: which lines of the image the two queue entries hold. */
  ghost predicate QueueOk(m: Image, s: FetchRegs) {
    var here := s.pc / 4;
    if s.insnOnTop then
      && s.pc % 4 == 0
      && s.instOut == Line(m, here)
      && (s.fetchState == Running ==> s.fetchAddress == NextLine(here))
    else
      && s.queue == Line(m, here)
      && s.instOut == Line(m, NextLine(here))
      && (s.fetchState == Running ==> s.fetchAddress == NextLine(NextLine(here)))
  }

  /** The refinement relation. */
  ghost predicate Refines(m: Image, s: FetchRegs, p: Plain) {
    && WellTyped(s)
    && match p
       case Starting(left) =>
         && s.pc == 0 && !s.insnOnTop
         && (|| (left == 2 && s.fetchState == Priming0 && s.fetchAddress == 0)
             || (left == 1 && s.fetchState == Priming1 && s.fetchAddress == 1 && s.instOut == Line(m, 0)))
       case At(pc) =>
         s.fetchState == Running && s.pc == pc && QueueOk(m, s)
       case Leaving(pc, target) =>
         && s.fetchState == Jumping && s.pc == pc && QueueOk(m, s)
         && s.jumpPc == target && s.fetchAddress == target / 4
       case Waiting(pc) =>
         && s.fetchState == Priming1 && s.pc == pc && pc % 4 != 0 && !s.insnOnTop
         && s.instOut == Line(m, pc / 4) && s.fetchAddress == NextLine(pc / 4)
  }

  lemma LineWords(m: Image, line: nat)
    requires line < LINES
    ensures Line(m, line) == Quad(m(4 * line), m(4 * line + 1), m(4 * line + 2), m(4 * line + 3))
  {
  }

  /** The words at `pc` that lie in the next line. */
  lemma WordsBeyond(pc: Addr, k: int)
    requires 0 <= k <= 3
    ensures pc % 4 + k < 4 ==> Plus(pc, k) == 4 * (pc / 4) + (pc % 4 + k)
    ensures pc % 4 + k >= 4 ==> Plus(pc, k) == 4 * NextLine(pc / 4) + (pc % 4 + k - 4)
  {
  }

  lemma MuxInLine(m: Image, s: FetchRegs)
    requires QueueOk(m, s) && (s.insnOnTop || s.pc % 4 == 0)
    ensures Inst64(s) == WordsAt(m, s.pc)
  {
    LineWords(m, s.pc / 4);
    assert s.pc == 4 * (s.pc / 4) + s.pc % 4;
  }

  /** A word at or after `pc`, in its line or the next one. */
  lemma WordAcross(m: Image, pc: Addr, k: nat)
    requires k <= 3
    ensures m(Plus(pc, k)) ==
      if pc % 4 + k < 4 then Line(m, pc / 4).At(pc % 4 + k) else Line(m, NextLine(pc / 4)).At(pc % 4 + k - 4)
  {
    LineWords(m, pc / 4);
    LineWords(m, NextLine(pc / 4));
    WordsBeyond(pc, k);
  }

  lemma MuxStraddles(m: Image, s: FetchRegs)
    requires QueueOk(m, s) && !s.insnOnTop && s.pc % 4 != 0
    ensures Inst64(s) == WordsAt(m, s.pc)
  {
    WordAcross(m, s.pc, 0);
    WordAcross(m, s.pc, 1);
    WordAcross(m, s.pc, 2);
    WordAcross(m, s.pc, 3);
  }

  /** Where the queue invariant holds, the multiplexer shows the four words at the program counter. */
  lemma MuxShowsWords(m: Image, s: FetchRegs)
    requires QueueOk(m, s)
    ensures Inst64(s) == WordsAt(m, s.pc)
  {
    if s.insnOnTop || s.pc % 4 == 0 {
      MuxInLine(m, s);
    } else {
      MuxStraddles(m, s);
    }
  }

  lemma ResetRefines(m: Image, s: FetchRegs)
    ensures Refines(m, Reset(s), Starting(2))
  {
  }

  lemma NextPcLine(pc: Addr, len: nat)
    requires len <= 4
    ensures Plus(pc, len) / 4 == if pc % 4 + len < 4 then pc / 4 else NextLine(pc / 4)
    ensures (Plus(pc, len) / 4) % 2 != (pc / 4) % 2 <==> pc % 4 + len >= 4
  {
  }

  lemma StepIdle(m: Image, s: FetchRegs, p: Plain, i: Input)
    requires Refines(m, s, p) && !Issues(s)
    ensures Issue(s) == PlainIssue(m, p) && Refines(m, Step(m, s, i), PlainStep(m, p, i))
  {
  }

  lemma StepAt(m: Image, s: FetchRegs, p: Plain, i: Input)
    requires Refines(m, s, p) && p.At?
    ensures Issue(s) == PlainIssue(m, p) && Refines(m, Step(m, s, i), PlainStep(m, p, i))
  {
    MuxShowsWords(m, s);
    NextPcLine(s.pc, BundleAt(m, s.pc).len);
  }

  lemma StepLeaving(m: Image, s: FetchRegs, p: Plain, i: Input)
    requires Refines(m, s, p) && p.Leaving?
    ensures Issue(s) == PlainIssue(m, p) && Refines(m, Step(m, s, i), PlainStep(m, p, i))
  {
    MuxShowsWords(m, s);
  }

  /** One cycle: the same packet issued, and the relation kept. */
  lemma StepRefines(m: Image, s: FetchRegs, p: Plain, i: Input)
    requires Refines(m, s, p)
    ensures Issue(s) == PlainIssue(m, p)
    ensures Refines(m, Step(m, s, i), PlainStep(m, p, i))
  {
    if p.At? {
      StepAt(m, s, p, i);
    } else if p.Leaving? {
      StepLeaving(m, s, p, i);
    } else {
      StepIdle(m, s, p, i);
    }
  }

  /** A jump request is accepted if and only if the fetcher is running; in any other state it is lost, and
      the next state is the one without it. */
  lemma JumpAcceptedIff(m: Image, s: FetchRegs, i: Input)
    requires WellTyped(s) && i.clkEn && i.jump.Some?
    ensures s.fetchState == Running <==> Step(m, s, i).fetchState == Jumping
    ensures s.fetchState == Running ==> Step(m, s, i).jumpPc == i.jump.value
    ensures s.fetchState != Running ==> Step(m, s, i) == Step(m, s, i.(jump := None))
  {
  }

  // ------------------------------------------------------------ whole runs

  function Run(m: Image, s: FetchRegs, inputs: seq<Input>): (t: FetchRegs)
    requires WellTyped(s)
    ensures WellTyped(t)
    decreases |inputs|
  {
    if inputs == [] then s else Step(m, Run(m, s, inputs[..|inputs| - 1]), inputs[|inputs| - 1])
  }

  function PlainRun(m: Image, p: Plain, inputs: seq<Input>): Plain {
    if inputs == [] then p
    else PlainStep(m, PlainRun(m, p, inputs[..|inputs| - 1]), inputs[|inputs| - 1])
  }

  /** The packets handed to the dispatcher in the enabled cycles of a run. */
  function IssueTrace(m: Image, s: FetchRegs, inputs: seq<Input>): seq<(Addr, Quad)>
    requires WellTyped(s)
    decreases |inputs|
  {
    if inputs == [] then []
    else
      var before := inputs[..|inputs| - 1];
      var out := Issue(Run(m, s, before));
      IssueTrace(m, s, before)
      + (if inputs[|inputs| - 1].clkEn && out.Some? then [out.value] else [])
  }

  function PlainTrace(m: Image, p: Plain, inputs: seq<Input>): seq<(Addr, Quad)> {
    if inputs == [] then []
    else
      var before := inputs[..|inputs| - 1];
      var out := PlainIssue(m, PlainRun(m, p, before));
      PlainTrace(m, p, before)
      + (if inputs[|inputs| - 1].clkEn && out.Some? then [out.value] else [])
  }

  /** Over every run from reset, with any stalls and jump requests, the fetcher issues what the
      plain machine issues. */
  lemma {:induction false} FetcherRefinesPlain(m: Image, power: FetchRegs, inputs: seq<Input>)
    ensures Refines(m, Run(m, Reset(power), inputs), PlainRun(m, Starting(2), inputs))
    ensures IssueTrace(m, Reset(power), inputs) == PlainTrace(m, Starting(2), inputs)
  {
    if inputs == [] {
      ResetRefines(m, power);
    } else {
      var before, last := inputs[..|inputs| - 1], inputs[|inputs| - 1];
      FetcherRefinesPlain(m, power, before);
      StepRefines(m, Run(m, Reset(power), before), PlainRun(m, Starting(2), before), last);
    }
  }

  /** Whenever the fetcher is in one of its two issuing states, the decoder input is exactly the
      four words at the program counter. */
  lemma DecoderInputExact(m: Image, power: FetchRegs, inputs: seq<Input>)
    ensures var s := Run(m, Reset(power), inputs); Issues(s) ==> Inst64(s) == WordsAt(m, s.pc)
  {
    FetcherRefinesPlain(m, power, inputs);
    var s := Run(m, Reset(power), inputs);
    if Issues(s) {
      MuxShowsWords(m, s);
    }
  }
}

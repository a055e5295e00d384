/** The other transfers of the bus master: single reads and writes, and bursts out of the data memory. The
    engine reads one word ahead, because the block memory answers one cycle late (rtl/verilog/dmem.v:215-268);
    that is enough unless the bus acknowledges twice in a row. The memory for simulation
    (rtl/verilog/dmem.v:179-180) answers at once, and there it always is. */
module BurstOut {
  import opened Words
  import opened WbBurst
  import opened BurstCorrect

  // ------------------------------------------------------- single transfers

  function Clocked(s: Regs, es: seq<Input>): Regs {
    if es == [] then s else Step(Clocked(s, es[..|es| - 1]), es[|es| - 1])
  }

  /** The bus has not acknowledged. */
  predicate Unanswered(es: seq<Input>) {
    forall i <- es :: !i.ack
  }

  /** A write that is on its way: the bus is addressed from the second cycle on. */
  predicate Writing(s: Regs, addr: BusAddr, data: Dword, addressed: bool) {
    && s.state.Write? && !s.ack && s.bus.adr == addr && s.bus.dat == data && s.bus.sel == ALL_BYTES
    && s.bus.cyc == s.bus.stb == addressed && (addressed ==> s.bus.we)
  }

  predicate Reading(s: Regs, addr: BusAddr, addressed: bool) {
    && s.state.Read? && !s.ack && s.bus.adr == addr
    && s.bus.cyc == s.bus.stb == addressed && (addressed ==> !s.bus.we)
  }

  lemma {:induction false} WriteWaits(s: Regs, i: Input, addr: BusAddr, data: Dword, es: seq<Input>)
    requires s.state.Idle? && i.request == WriteRequest(addr, data) && Unanswered(es)
    ensures Writing(Clocked(Step(s, i), es), addr, data, es != [])
    ensures Clocked(Step(s, i), es).burst == s.burst
  {
    if es != [] {
      WriteWaits(s, i, addr, data, es[..|es| - 1]);
    }
  }

  lemma {:induction false} ReadWaits(s: Regs, i: Input, addr: BusAddr, es: seq<Input>)
    requires s.state.Idle? && i.request == ReadRequest(addr) && Unanswered(es)
    ensures Reading(Clocked(Step(s, i), es), addr, es != [])
    ensures Clocked(Step(s, i), es).burst == s.burst
  {
    if es != [] {
      ReadWaits(s, i, addr, es[..|es| - 1]);
    }
  }

  /** A single write, however long the bus takes: the core is told in the cycle after the bus acknowledges,
      and only in that one. The bus is still addressed in that cycle. */
  lemma WriteServed(s: Regs, i: Input, addr: BusAddr, data: Dword, es: seq<Input>, last: Input, next: Input)
    requires s.state.Idle? && i.request == WriteRequest(addr, data) && Unanswered(es) && last.ack
    ensures var t := Step(Clocked(Step(s, i), es), last);
      && Writing(Clocked(Step(s, i), es), addr, data, es != [])
      && t.state.Idle? && t.ack && !Step(t, next).ack && t.burst == s.burst
      && t.bus.cyc && t.bus.stb && t.bus.we && t.bus.adr == addr && t.bus.dat == data
      && !Step(t, next).bus.cyc && !Step(t, next).bus.stb
  {
    WriteWaits(s, i, addr, data, es);
  }

  /** A single read: the core is told two cycles after the bus acknowledges, once, and gets what is on the
      bus in the cycle after the acknowledgement, when the bus is still addressed. */
  lemma ReadServed(s: Regs, i: Input, addr: BusAddr, es: seq<Input>, last: Input, after: Input, next: Input)
    requires s.state.Idle? && i.request == ReadRequest(addr) && Unanswered(es) && last.ack
    ensures var held := Step(Clocked(Step(s, i), es), last);
      var t := Step(held, after);
      && Reading(Clocked(Step(s, i), es), addr, es != [])
      && !held.ack && held.bus.cyc && held.bus.stb && !held.bus.we && held.bus.adr == addr
      && t.state.Idle? && t.ack && t.readData == after.data && !t.bus.cyc && !t.bus.stb
      && !Step(t, next).ack && t.burst == s.burst
  {
    ReadWaits(s, i, addr, es);
  }

  // -------------------------------------------------------- bursts outwards

  /** The engine with the output register of the memory's outside port. */
  datatype Sender = Sender(regs: Regs, seen: Dword)

  function PairOf(m: Cells, a: Addr): Dword {
    PairAt(m, a / 2)
  }

  /** The data memory, which nobody else writes, and whether its outside port answers a cycle late. */
  datatype Source = Source(cells: Cells, late: bool) {
    /** What the engine finds at the port. */
    function Read(s: Sender): Dword {
      if late then s.seen else PairOf(cells, s.regs.burst.intAddr)
    }
  }

  function Send(m: Source, s: Sender, i: Input): Sender {
    Sender(Step(s.regs, i.(memory := m.Read(s))),
           if s.regs.burst.dmemRead then PairOf(m.cells, s.regs.burst.intAddr) else s.seen)
  }

  function SendAll(m: Source, s: Sender, es: seq<Input>): Sender {
    if es == [] then s else Send(m, SendAll(m, s, es[..|es| - 1]), es[|es| - 1])
  }

  /** The bus acknowledges only while it is addressed. */
  ghost predicate Answering(m: Source, s: Sender, es: seq<Input>) {
    es == [] || (
      && Answering(m, s, es[..|es| - 1])
      && (es[|es| - 1].ack ==> SendAll(m, s, es[..|es| - 1]).regs.bus.cyc))
  }

  /** What the bus gets with an acknowledgement. */
  datatype Transfer = Transfer(we: bool, adr: BusAddr, dat: Dword, sel: (bool, bool, bool, bool))

  function OnBus(bus: Drive): Transfer {
    Transfer(bus.we, bus.adr, bus.dat, bus.sel)
  }

  function Transfers(m: Source, s: Sender, es: seq<Input>): seq<Transfer> {
    if es == [] then []
    else
      Transfers(m, s, es[..|es| - 1])
      + if es[|es| - 1].ack then [OnBus(SendAll(m, s, es[..|es| - 1]).regs.bus)] else []
  }

  ghost predicate Outbound(j: Job) {
    j.flags.writeExt && !j.flags.imem
  }

  /** Transfer `k` of the job, with the word of cell `a`. */
  function Sent(m: Source, j: Job, k: nat, a: Addr): Transfer {
    Transfer(true, j.BusAt(k), PairOf(m.cells, a), Select(j.flags.transp, PairOf(m.cells, a)))
  }

  /** What the first `n` transfers of the job should be. */
  function Plan(m: Source, j: Job, n: nat): (plan: seq<Transfer>)
    ensures |plan| == n
  {
    if n == 0 then [] else Plan(m, j, n - 1) + [Sent(m, j, n - 1, j.CellAt(n - 1))]
  }

  /** Byte `lane` of a word, and the selection of that byte; lane 0 is the lowest. */
  function ByteOf(d: Dword, lane: nat): nat
    requires lane < 4
  {
    var word := d.hi * 0x1_0000 + d.lo;
    match lane
    case 0 => word % 0x100
    case 1 => word / 0x100 % 0x100
    case 2 => word / 0x1_0000 % 0x100
    case _ => word / 0x100_0000
  }

  function Lane(sel: (bool, bool, bool, bool), lane: nat): bool
    requires lane < 4
  {
    match lane
    case 0 => sel.3
    case 1 => sel.2
    case 2 => sel.1
    case _ => sel.0
  }

  /** A transparent burst leaves alone the bytes outside whose new value would be zero, and only those. */
  lemma TransparentBytes(transp: bool, d: Dword, lane: nat)
    requires lane < 4
    ensures Lane(Select(transp, d), lane) <==> !transp || ByteOf(d, lane) != 0
  {
    assert (d.hi * 0x1_0000 + d.lo) / 0x1_0000 == d.hi;
    assert (d.hi * 0x1_0000 + d.lo) / 0x100_0000 == d.hi / 0x100;
    assert (d.hi * 0x1_0000 + d.lo) / 0x100 == d.hi * 0x100 + d.lo / 0x100;
  }

  // ------------------------------------------------------------- the timing

  /** The bus acknowledged in the last cycle. */
  predicate JustAcked(es: seq<Input>) {
    es != [] && es[|es| - 1].ack
  }

  /** The last acknowledgement came right behind another one. */
  predicate Hurried(es: seq<Input>) {
    es != [] &&
      if es[|es| - 1].ack then JustAcked(es[..|es| - 1]) else Hurried(es[..|es| - 1])
  }

  /** No word is taken after two acknowledgements in a row. */
  predicate Unhurried(es: seq<Input>) {
    es == [] || (Unhurried(es[..|es| - 1]) && (es[|es| - 1].ack ==> !Hurried(es[..|es| - 1])))
  }

  /** No two acknowledgements in a row. */
  predicate Spaced(es: seq<Input>) {
    es == [] || (Spaced(es[..|es| - 1]) && (es[|es| - 1].ack ==> !JustAcked(es[..|es| - 1])))
  }

  lemma {:induction false} SpacedUnhurried(es: seq<Input>)
    requires Spaced(es)
    ensures Unhurried(es) && !Hurried(es)
  {
    if es != [] {
      SpacedUnhurried(es[..|es| - 1]);
    }
  }

  // ------------------------------------------------------------ the invariant

  /** The cell whose word is on the bus for transfer `k`. */
  function CellShown(m: Source, j: Job, k: nat, hurried: bool): Addr {
    if m.late && hurried && k > 0 then j.CellAt(k - 1) else j.CellAt(k)
  }

  /** The engine with `k` words of the job sent and more to come. */
  ghost predicate Sending(m: Source, j: Job, k: nat, s: Sender, acked: bool, hurried: bool) {
    var r := s.regs;
    && k < j.Total() && (acked ==> k > 0)
    && r.bus.cyc == r.bus.stb && (r.bus.cyc ==> r.state.Burst1?)
    && r.bus.adr == j.BusAt(k) && r.bus.we && r.burst.flags == j.flags && r.burst.len == j.len / 4 - k
    && r.burst.dmemRead && !r.burst.dmemWrite && !r.burst.imemWrite && !r.ack
    && if r.state.Burst? || r.state.Burst0? then
         && k == 0 && !acked && !hurried && r.burst.intAddr == j.start
         && (r.state.Burst0? ==> s.seen == PairOf(m.cells, j.start))
       else
         && (r.state.Burst1? || r.state.BackOff?) && r.burst.intAddr == j.CellAt(k + 1)
         && OnBus(r.bus) == Sent(m, j, k, CellShown(m, j, k, hurried))
         && (s.seen == PairOf(m.cells, j.CellAt(k)) || (!acked && s.seen == PairOf(m.cells, j.CellAt(k + 1))))
         && (r.bus.cyc && !acked ==> s.seen == PairOf(m.cells, j.CellAt(k + 1)))
  }

  lemma SendStep(m: Source, j: Job, k: nat, s: Sender, acked: bool, hurried: bool, i: Input)
    requires Outbound(j) && Sending(m, j, k, s, acked, hurried) && (i.ack ==> s.regs.bus.cyc)
    ensures if !i.ack then Sending(m, j, k, Send(m, s, i), false, hurried)
            else if k + 1 < j.Total() then Sending(m, j, k + 1, Send(m, s, i), true, acked)
            else Finished(Send(m, s, i).regs)
    ensures i.ack ==> OnBus(s.regs.bus) == Sent(m, j, k, CellShown(m, j, k, hurried))
  {
  }

  /** While acknowledgements are outstanding the burst goes on. */
  lemma {:induction false} SendGoesOn(m: Source, j: Job, s: Sender, es: seq<Input>)
    requires Outbound(j) && Sending(m, j, 0, s, false, false) && Answering(m, s, es) && Acks(es) < j.Total()
    ensures Sending(m, j, Acks(es), SendAll(m, s, es), JustAcked(es), Hurried(es))
  {
    if es != [] {
      var init, i := es[..|es| - 1], es[|es| - 1];
      SendGoesOn(m, j, s, init);
      SendStep(m, j, Acks(init), SendAll(m, s, init), JustAcked(init), Hurried(init), i);
    }
  }

  /** Neighbouring words of the job differ. */
  ghost predicate AllDiffer(m: Source, j: Job) {
    forall k: nat :: 0 < k < j.Total() ==> PairOf(m.cells, j.CellAt(k)) != PairOf(m.cells, j.CellAt(k - 1))
  }

  /** The transfers are the planned ones if the memory answers at once or nothing is hurried; only then,
      if neighbouring words differ. */
  lemma {:induction false} TransfersPlanned(m: Source, j: Job, s: Sender, es: seq<Input>)
    requires Outbound(j) && Sending(m, j, 0, s, false, false) && Answering(m, s, es)
    requires Acks(es) < j.Total() || (JustAcked(es) && Acks(es) == j.Total())
    ensures |Transfers(m, s, es)| == Acks(es)
    ensures !m.late || Unhurried(es) ==> Transfers(m, s, es) == Plan(m, j, Acks(es))
    ensures AllDiffer(m, j) && Transfers(m, s, es) == Plan(m, j, Acks(es)) ==> !m.late || Unhurried(es)
  {
    if es != [] {
      var init, i := es[..|es| - 1], es[|es| - 1];
      TransfersPlanned(m, j, s, init);
      SendGoesOn(m, j, s, init);
      var k := Acks(init);
      SendStep(m, j, k, SendAll(m, s, init), JustAcked(init), Hurried(init), i);
      if i.ack {
        if Hurried(init) {
          HurriedLate(init);
        }
        OneMoreSent(m, j, k, Transfers(m, s, init), Hurried(init));
      }
    }
  }

  lemma OneMoreSent(m: Source, j: Job, k: nat, sent: seq<Transfer>, hurried: bool)
    requires |sent| == k < j.Total() && (hurried ==> k > 0)
    ensures var next := Sent(m, j, k, CellShown(m, j, k, hurried));
      && (sent + [next] == Plan(m, j, k + 1) ==> sent == Plan(m, j, k) && next == Sent(m, j, k, j.CellAt(k)))
      && (sent == Plan(m, j, k) && (!m.late || !hurried) ==> sent + [next] == Plan(m, j, k + 1))
      && (AllDiffer(m, j) && m.late && hurried ==> next != Sent(m, j, k, j.CellAt(k)))
  {
    var next := Sent(m, j, k, CellShown(m, j, k, hurried));
    if sent + [next] == Plan(m, j, k + 1) {
      assert (sent + [next])[..k] == sent && (sent + [next])[k] == next;
      assert Plan(m, j, k + 1)[..k] == Plan(m, j, k);
    }
  }

  lemma {:induction false} HurriedLate(es: seq<Input>)
    requires Hurried(es)
    ensures Acks(es) > 0
  {
    if !es[|es| - 1].ack {
      HurriedLate(es[..|es| - 1]);
    }
  }

  /** The state a burst request leads to from idle. */
  function Requested(s: Sender, j: Job, m: Source, i: Input): Sender
    requires s.regs.state.Idle?
  {
    Send(m, s, i.(request := BurstRequest(j.ext, j.start, j.len, j.flags)))
  }

  /** A burst out of the data memory, whatever the acknowledge delays: after exactly max(1, len >> 2)
      acknowledgements it is over. If the memory answers at once, or no word is taken after two
      acknowledgements in a row, the bus got the job's words in order, each at its address and with its
      byte selection; when neighbouring words differ, only then. */
  lemma OutboundBurstExact(m: Source, j: Job, s: Sender, i: Input, es: seq<Input>)
    requires Outbound(j) && s.regs.state.Idle? && Answering(m, Requested(s, j, m, i), es)
    requires JustAcked(es) && Acks(es) == j.Total()
    ensures var t, sent := SendAll(m, Requested(s, j, m, i), es), Transfers(m, Requested(s, j, m, i), es);
      && Finished(t.regs) && |sent| == j.Total()
      && (!m.late || Unhurried(es) ==> sent == Plan(m, j, j.Total()))
      && (AllDiffer(m, j) ==> (sent == Plan(m, j, j.Total()) <==> !m.late || Unhurried(es)))
  {
    var s0, init := Requested(s, j, m, i), es[..|es| - 1];
    TransfersPlanned(m, j, s0, es);
    SendGoesOn(m, j, s0, init);
    SendStep(m, j, Acks(init), SendAll(m, s0, init), JustAcked(init), Hurried(init), es[|es| - 1]);
  }
}

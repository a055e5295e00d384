/** The serial transmitter and receiver of rtl/verilog/soc/uart.v. */
module Uart {

  /** The bit times of both ends: a bit lasts `full + 1` clock cycles. */
  datatype Times = Times(full: nat, half: nat) {
    predicate Valid() {
      half <= full < 0x1_0000
    }
  }

  /** Eight bits, the one sent first at the front. */
  type Byte = b: seq<bool> | |b| == 8 witness [false, false, false, false, false, false, false, false]

  /** A shift register moves towards the front. */
  function Shift(b: Byte, next: bool): Byte {
    b[1..] + [next]
  }

  /** 16-bit counters, and the 3-bit counters of data bits. */
  function Up(n: nat): nat {
    if n == 0xFFFF then 0 else n + 1
  }

  function Down(n: nat): nat {
    if n == 0 then 0xFFFF else n - 1
  }

  function NextBit(n: nat): nat {
    if n == 7 then 0 else n + 1
  }

  // ---------------------------------------------------------- transmitter

  datatype TxState = TxIdle | TxStart | TxData | TxStop

  datatype TxRegs = TxRegs(clk: nat, shift: Byte, state: TxState, line: bool, count: nat)

  datatype TxInput = TxInput(rst: bool, req: bool, data: Byte)

  function NextTxState(t: Times, s: TxRegs, req: bool): TxState {
    var strobe := s.clk == t.full;
    match s.state
    case TxIdle => if req then TxStart else TxIdle
    case TxStart => if strobe then TxData else TxStart
    case TxData => if strobe && s.count == 7 then TxStop else TxData
    case TxStop => if strobe then TxIdle else TxStop
  }

  function TxStep(t: Times, s: TxRegs, i: TxInput): TxRegs {
    var strobe := s.clk == t.full;
    TxRegs(
      if i.rst || strobe then 0 else Up(s.clk),
      if i.req && s.state.TxIdle? then i.data
      else if strobe && s.state.TxData? then Shift(s.shift, false)
      else s.shift,
      if i.rst then TxIdle else NextTxState(t, s, i.req),
      if i.rst then true
      else if strobe then
        match s.state
        case TxStart => false
        case TxData => s.shift[0]
        case TxStop => true
        case TxIdle => s.line
      else s.line,
      if i.rst then 0
      else if strobe && s.state.TxData? then NextBit(s.count)
      else s.count)
  }

  class Transmitter {
    const times: Times
    var clk: nat
    var shift: Byte
    var state: TxState
    var line: bool
    var count: nat

    function Regs(): TxRegs
      reads this
    {
      TxRegs(clk, shift, state, line, count)
    }

    constructor (times: Times, power: TxRegs)
      ensures this.times == times && Regs() == power
    {
      this.times := times;
      clk, shift, state, line, count := power.clk, power.shift, power.state, power.line, power.count;
    }

    method Clock(i: TxInput)
      modifies this
      ensures Regs() == TxStep(times, old(Regs()), i)
    {
      var strobe := clk == times.full;
      var next := NextTxState(times, Regs(), i.req);
      if strobe {
        match state
        case TxStart =>
          line := false;
        case TxData =>
          line := shift[0];
          count := NextBit(count);
        case TxStop =>
          line := true;
        case TxIdle =>
      }
      if i.req && state.TxIdle? {
        shift := i.data;
      } else if strobe && state.TxData? {
        shift := Shift(shift, false);
      }
      clk := if strobe then 0 else Up(clk);
      state := next;
      if i.rst {
        clk, state, line, count := 0, TxIdle, true, 0;
      }
    }
  }

  // ------------------------------------------------------------- receiver

  datatype RxState = RxIdle | RxStart | RxData | RxStop | RxRecvd

  /** Three flops behind each other at the input. */
  datatype Flops = Flops(l1: bool, l2: bool, l3: bool)

  datatype RxRegs = RxRegs(clk: nat, state: RxState, shift: Byte, count: nat, flops: Flops)

  function NextRxState(s: RxRegs): RxState {
    var strobe := s.clk == 0;
    match s.state
    case RxIdle => if s.flops.l3 && !s.flops.l2 then RxStart else RxIdle
    case RxStart => if !strobe then RxStart else if s.flops.l3 then RxIdle else RxData
    case RxData => if strobe && s.count == 7 then RxStop else RxData
    case RxStop => if !strobe then RxStop else if s.flops.l3 then RxRecvd else RxIdle
    case RxRecvd => RxIdle
  }

  function RxStep(t: Times, s: RxRegs, rst: bool, line: bool): RxRegs {
    var strobe := s.clk == 0;
    RxRegs(
      if rst || s.state.RxIdle? then t.half
      else if strobe && (s.state.RxStart? || s.state.RxData?) then t.full
      else Down(s.clk),
      if rst then RxIdle else NextRxState(s),
      if strobe && s.state.RxData? then Shift(s.shift, s.flops.l3) else s.shift,
      if rst then 0 else if strobe && s.state.RxData? then NextBit(s.count) else s.count,
      Flops(line, s.flops.l1, s.flops.l2))
  }

  /** `rx_ack`: the byte in the shift register is complete. */
  predicate Ack(s: RxRegs) {
    s.state.RxRecvd?
  }

  class Receiver {
    const times: Times
    var clk: nat
    var state: RxState
    var shift: Byte
    var count: nat
    var flops: Flops

    function Regs(): RxRegs
      reads this
    {
      RxRegs(clk, state, shift, count, flops)
    }

    constructor (times: Times, power: RxRegs)
      ensures this.times == times && Regs() == power
    {
      this.times := times;
      clk, state, shift, count, flops := power.clk, power.state, power.shift, power.count, power.flops;
    }

    method Clock(rst: bool, line: bool)
      modifies this
      ensures Regs() == RxStep(times, old(Regs()), rst, line)
    {
      var strobe := clk == 0;
      var next := NextRxState(Regs());
      if strobe && state.RxData? {
        shift := Shift(shift, flops.l3);
        count := NextBit(count);
      }
      if state.RxIdle? {
        clk := times.half;
      } else if strobe && (state.RxStart? || state.RxData?) {
        clk := times.full;
      } else {
        clk := Down(clk);
      }
      state := next;
      flops := Flops(line, flops.l1, flops.l2);
      if rst {
        clk, state, count := times.half, RxIdle, 0;
      }
    }
  }
}

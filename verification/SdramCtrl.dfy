/** The state machine of the DDR memory controller in rtl/verilog/soc/sdram_ctrl.v. */
module SdramCtrl {

  /** Timing parameters, in clock cycles: 200 us, tRP, tRFC and tREFI. The source sets them to
      20000, 3, 10 and 5000, for 100 MHz; its counter holds 16 bits. */
  datatype Timing = Timing(powerUp: nat, rp: nat, rfc: nat, refi: nat)

  /** A user address: row bits 22..10, column bits 9..0. */
  datatype Place = Place(row: nat, col: nat)

  datatype State =
    | Init0 | Init1 | Init2 | Init3 | Init4 | Init5 | Init6 | Init7 | Init8 | Init9 | Init10 | Init11 | Init12 | Init13
    | Idle | Refresh0 | Refresh1
    | PrechargeCmd | PrechargeWait0 | PrechargeWait1
    | ActCmd | ActWait | RowActive
    | WriteCmd | WriteData | WriteWait0
    | ReadCmd | ReadCl0 | ReadCl1 | ReadCl2 | ReadData | ReadWait0
    | Wait0 | Wait1 | Wait2

  datatype Regs = Regs(state: State, counter: nat, cke: bool, activeRow: nat, burst: Place)

  datatype Input = Input(odd: bool, readReq: bool, writeReq: bool, addr: Place)

  /** The command on the device's pins. */
  datatype Command =
    | Nop | Active(row: nat) | Read(col: nat) | Write(col: nat) | PrechargeAll | AutoRefresh | LoadMode(extended: bool)

  // --------------------------------------------------- combinational part

  function CommandOf(s: Regs, i: Input): Command {
    match s.state
    case Init2 => PrechargeAll
    case Init4 => LoadMode(true)
    case Init6 => LoadMode(false)
    case Init8 => PrechargeAll
    case Init10 => AutoRefresh
    case Init12 => AutoRefresh
    case Refresh0 => AutoRefresh
    case PrechargeCmd => PrechargeAll
    case ActCmd => Active(i.addr.row)
    case WriteCmd => Write(s.burst.col)
    case ReadCmd => Read(s.burst.col)
    case _ => Nop
  }

  /** The two acknowledgements: twice for every write, and twice for every read. */
  predicate ReadAck(s: Regs) {
    s.state.ReadData? || s.state.ReadWait0?
  }

  predicate WriteAck(s: Regs) {
    s.state.WriteCmd? || s.state.WriteData?
  }

  predicate Conflict(s: Regs, i: Input) {
    (i.readReq || i.writeReq) && s.activeRow != i.addr.row
  }

  function NextState(s: Regs, i: Input): State {
    var zero := s.counter == 0;
    match s.state
    case Init0 => if zero then Init1 else Init0
    case Init1 => Init2
    case Init2 => Init3
    case Init3 => if zero then Init4 else Init3
    case Init4 => Init5
    case Init5 => Init6
    case Init6 => Init7
    case Init7 => Init8
    case Init8 => Init9
    case Init9 => if zero then Init10 else Init9
    case Init10 => Init11
    case Init11 => if zero then Init12 else Init11
    case Init12 => Init13
    case Init13 => if zero then Idle else Init13
    case Idle => if zero then Refresh0 else if i.odd && (i.readReq || i.writeReq) then ActCmd else Idle
    case Refresh0 => Refresh1
    case Refresh1 => if zero then Idle else Refresh1
    case PrechargeCmd => PrechargeWait0
    case PrechargeWait0 => PrechargeWait1
    case PrechargeWait1 => Idle
    case ActCmd => ActWait
    case ActWait => RowActive
    case RowActive =>
      if zero || Conflict(s, i) then PrechargeCmd
      else if i.odd then RowActive
      else if i.writeReq then WriteCmd
      else if i.readReq then ReadCmd
      else RowActive
    case WriteCmd => WriteData
    case WriteData => WriteWait0
    case WriteWait0 => RowActive
    case ReadCmd => ReadCl0
    case ReadCl0 => ReadCl1
    case ReadCl1 => ReadCl2
    case ReadCl2 => ReadData
    case ReadData => ReadWait0
    case ReadWait0 => RowActive
    case Wait0 => Wait1
    case Wait1 => Wait2
    case Wait2 => Idle
  }

  /** What the cycle counter is reloaded with, if it is. */
  function Reload(t: Timing, s: Regs): (bool, nat) {
    match s.state
    case Init2 => (true, t.rp)
    case Init8 => (true, t.rp)
    case Init10 => (true, t.rfc)
    case Init12 => (true, t.rfc + 200)
    case Init13 => (s.counter == 0, t.refi)
    case Refresh0 => (true, t.rfc)
    case Refresh1 => (s.counter == 0, t.refi)
    case _ => (false, 0)
  }

  function NextCounter(t: Timing, s: Regs): nat {
    var (reload, value) := Reload(t, s);
    if reload then value else if s.counter > 0 then s.counter - 1 else 0
  }

  /** The request is captured as its command is decided on. */
  predicate Captures(s: Regs, i: Input) {
    s.state.RowActive? && s.counter != 0 && !Conflict(s, i) && !i.odd && (i.readReq || i.writeReq)
  }

  // ----------------------------------------------------------- clocked part

  function Reset(t: Timing, power: Regs): Regs {
    Regs(Init0, t.powerUp, false, 0, Place(0, 0))
  }

  function Step(t: Timing, s: Regs, i: Input): Regs {
    var next := NextState(s, i);
    Regs(next,
         NextCounter(t, s),
         s.cke || next.Init1?,
         if s.state.ActCmd? then i.addr.row else s.activeRow,
         if Captures(s, i) then i.addr else s.burst)
  }

  class Controller {
    const t: Timing
    var state: State
    var counter: nat
    var cke: bool
    var activeRow: nat
    var burst: Place

    function Value(): Regs
      reads this
    {
      Regs(state, counter, cke, activeRow, burst)
    }

    constructor (t: Timing, power: Regs)
      ensures this.t == t && Value() == Reset(t, power)
    {
      this.t := t;
      state, counter, cke, activeRow, burst := Init0, t.powerUp, false, 0, Place(0, 0);
    }

    /** One clock edge; the outputs are what stood there before it. */
    method Clock(i: Input) returns (command: Command, readAck: bool, writeAck: bool)
      modifies this
      ensures command == CommandOf(old(Value()), i)
      ensures readAck == ReadAck(old(Value())) && writeAck == WriteAck(old(Value()))
      ensures Value() == Step(t, old(Value()), i)
    {
      command := CommandOf(Value(), i);
      readAck, writeAck := false, false;
      match state {
        case ReadData => readAck := true;
        case ReadWait0 => readAck := true;
        case WriteCmd => writeAck := true;
        case WriteData => writeAck := true;
        case _ =>
      }
      var next, captures := NextState(Value(), i), Captures(Value(), i);
      counter := NextCounter(t, Value());
      if next.Init1? {
        cke := true;
      }
      if state.ActCmd? {
        activeRow := i.addr.row;
      }
      if captures {
        burst := i.addr;
      }
      state := next;
    }
  }
}

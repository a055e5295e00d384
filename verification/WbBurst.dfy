/** The bus master of rtl/verilog/soc/wb_ajardsp.v with the outside ports of the two memories it
    fills (rtl/verilog/dmem.v, rtl/verilog/imem.v). */
module WbBurst {
  import opened Words

  type Word = w: int | 0 <= w < 0x1_0000

  /** 32 bits: two memory words, the one at the even address first. */
  datatype Dword = Dword(lo: Word, hi: Word)

  const BUS_SPAN := 0x1_0000_0000

  type BusAddr = a: int | 0 <= a < BUS_SPAN

  // ------------------------------------------------------------ registers

  datatype Flags = Flags(incExt: bool, incInt: bool, writeExt: bool, imem: bool, transp: bool)

  datatype BusState = Idle | Read | Write | ReadAck | Burst | Burst0 | Burst1 | BackOff

  /** What the master drives onto the bus; `sel` is the byte selection, highest byte first. */
  datatype Drive = Drive(cyc: bool, stb: bool, we: bool, adr: BusAddr, dat: Dword, sel: (bool, bool, bool, bool))

  /** The burst counters and enables. */
  datatype Count = Count(len: nat, intAddr: Addr, flags: Flags, dmemRead: bool, dmemWrite: bool, imemWrite: bool)

  datatype Regs = Regs(state: BusState, bus: Drive, burst: Count, readData: Dword, ack: bool)

  /** A request from the core; reads come first, then writes, then bursts. */
  datatype Request =
    | NoRequest
    | ReadRequest(addr: BusAddr)
    | WriteRequest(addr: BusAddr, data: Dword)
    | BurstRequest(ext: BusAddr, int_: Addr, len: Addr, flags: Flags)

  /** One cycle's inputs: the core's request, the bus, and the word read from data memory. */
  datatype Input = Input(request: Request, ack: bool, data: Dword, memory: Dword)

  /** The two memories, 16 bits a word. */
  type Cells = c: seq<Word> | |c| == WORD_SPAN witness seq(WORD_SPAN, _ => 0)

  datatype Memories = Memories(dmem: Cells, imem: Cells)

  // ------------------------------------------------------------- one cycle

  const ALL_BYTES := (true, true, true, true)

  function Select(transp: bool, d: Dword): (bool, bool, bool, bool) {
    if transp then (d.hi / 256 != 0, d.hi % 256 != 0, d.lo / 256 != 0, d.lo % 256 != 0) else ALL_BYTES
  }

  function NextBusAddr(a: BusAddr): BusAddr {
    (a + 4) % BUS_SPAN
  }

  function Accept(s: Regs, r: Request): Regs {
    var off := s.(bus := s.bus.(cyc := false, stb := false), ack := false);
    match r
    case NoRequest => off
    case ReadRequest(addr) => off.(state := Read, bus := off.bus.(adr := addr))
    case WriteRequest(addr, data) => off.(state := Write, bus := off.bus.(adr := addr, dat := data, sel := ALL_BYTES))
    case BurstRequest(ext, int_, len, flags) =>
      off.(state := Burst, bus := off.bus.(adr := ext, we := flags.writeExt),
           burst := Count(len / 4, int_, flags, flags.writeExt && !flags.imem,
                          !flags.writeExt && !flags.imem, !flags.writeExt && flags.imem))
  }

  /** An acknowledged transfer of a burst that goes on. */
  function NextTransfer(s: Regs, i: Input): Regs {
    var f := s.burst.flags;
    var hold := s.burst.len % 16 == 0;
    s.(state := if hold then BackOff else Burst1, ack := false,
       bus := s.bus.(cyc := !hold, stb := !hold, dat := i.memory, sel := Select(f.transp, i.memory),
                     adr := if f.incExt then NextBusAddr(s.bus.adr) else s.bus.adr),
       burst := s.burst.(len := if s.burst.len > 0 then s.burst.len - 1 else 0,
                         intAddr := if f.incInt then Plus(s.burst.intAddr, 2) else s.burst.intAddr))
  }

  /** The acknowledged last transfer of a burst. */
  function LastTransfer(s: Regs, i: Input): Regs {
    s.(state := Idle, ack := true,
       bus := s.bus.(cyc := false, stb := false, we := false, dat := i.memory,
                     sel := Select(s.burst.flags.transp, i.memory)),
       burst := s.burst.(dmemRead := false, dmemWrite := false, imemWrite := false))
  }

  function Step(s: Regs, i: Input): Regs {
    var f := s.burst.flags;
    var off := s.(bus := s.bus.(cyc := false, stb := false), ack := false);
    var on := s.(bus := s.bus.(cyc := true, stb := true), ack := false);
    var t :=
      match s.state
      case Idle => Accept(s, i.request)
      case Read => on.(bus := on.bus.(we := false), state := if i.ack then ReadAck else Read)
      case ReadAck => off.(bus := off.bus.(we := false), state := Idle, ack := true)
      case Write => on.(bus := on.bus.(we := true), state := if i.ack then Idle else Write, ack := i.ack)
      case BackOff => off.(state := Burst1)
      case Burst => off.(state := Burst0)
      case Burst0 =>
        off.(state := Burst1, bus := off.bus.(dat := i.memory, sel := Select(f.transp, i.memory)),
             burst := if f.writeExt && f.incInt then s.burst.(intAddr := Plus(s.burst.intAddr, 2)) else s.burst)
      case Burst1 =>
        if !i.ack then on
        else if s.burst.len > 1 then NextTransfer(s, i)
        else LastTransfer(s, i);
    t.(readData := i.data)
  }

  /** A pair of memory words: the lowest address bit is not looked at. */
  function PutPair(m: Cells, a: Addr, d: Dword): Cells {
    m[a / 2 * 2 := d.lo][a / 2 * 2 + 1 := d.hi]
  }

  /** The write enables stay up for the whole burst: every cycle writes what is on the bus. */
  function StepMemories(m: Memories, s: Regs, i: Input): Memories {
    Memories(if s.burst.dmemWrite then PutPair(m.dmem, s.burst.intAddr, i.data) else m.dmem,
             if s.burst.imemWrite then PutPair(m.imem, s.burst.intAddr, i.data) else m.imem)
  }

  const BOOT_ADDR: BusAddr := 0xD000_0000
  const BOOT_LEN: Addr := 0x100
  const BOOT_FLAGS := Flags(true, true, false, true, false)

  /** Reset, with or without booting from outside. */
  function Reset(s: Regs, boot: bool): Regs {
    var bus := s.bus.(cyc := false, stb := false, we := false);
    if boot then
      Regs(Burst, bus.(adr := BOOT_ADDR),
           Count(BOOT_LEN / 4, 0, BOOT_FLAGS, false, false, true), Dword(0, 0), false)
    else
      Regs(Idle, bus, s.burst.(dmemRead := false, dmemWrite := false, imemWrite := false), Dword(0, 0), false)
  }

  class Master {
    const dmem: array<Word>
    const imem: array<Word>
    var state: BusState
    var bus: Drive
    var burst: Count
    var readData: Dword
    var ack: bool

    ghost predicate Valid()
      reads this
    {
      dmem.Length == WORD_SPAN && imem.Length == WORD_SPAN && dmem != imem
    }

    function Value(): Regs
      reads this
    {
      Regs(state, bus, burst, readData, ack)
    }

    ghost function Held(): Memories
      requires Valid()
      reads this, dmem, imem
    {
      Memories(dmem[..], imem[..])
    }

    constructor (power: Regs)
      ensures Valid() && fresh(dmem) && fresh(imem) && Value() == power
    {
      dmem := new Word[WORD_SPAN](_ => 0);
      imem := new Word[WORD_SPAN](_ => 0);
      state, bus, burst, readData, ack := power.state, power.bus, power.burst, power.readData, power.ack;
    }

    /** The branch of the always-block that reset takes. */
    method ResetRegs(boot: bool)
      modifies this
      ensures Value() == Reset(old(Value()), boot)
    {
      bus := bus.(cyc := false, stb := false);
      ack := false;
      if boot {
        state := Burst;
        bus := bus.(adr := BOOT_ADDR);
        burst := burst.(imemWrite := true, intAddr := 0, len := BOOT_LEN / 4, flags := BOOT_FLAGS);
      } else {
        state := Idle;
        burst := burst.(imemWrite := false);
      }
      burst := burst.(dmemRead := false, dmemWrite := false);
      bus := bus.(we := false);
      readData := Dword(0, 0);
    }

    method WritePair(a: array<Word>, at: Addr, d: Dword)
      requires a.Length == WORD_SPAN
      modifies a
      ensures a[..] == PutPair(old(a[..]), at, d)
    {
      a[at / 2 * 2] := d.lo;
      a[at / 2 * 2 + 1] := d.hi;
    }

    method ClockMemories(i: Input)
      requires Valid()
      modifies dmem, imem
      ensures Held() == StepMemories(old(Held()), Value(), i)
    {
      if burst.dmemWrite {
        WritePair(dmem, burst.intAddr, i.data);
      }
      if burst.imemWrite {
        WritePair(imem, burst.intAddr, i.data);
      }
    }

    /** The idle state: read requests go before writes, and writes before bursts. */
    method ClockIdle(i: Input)
      requires state.Idle? && !bus.cyc && !bus.stb && !ack
      modifies this
      ensures Value() == Accept(old(Value()), i.request)
    {
      match i.request
      case ReadRequest(addr) =>
        bus := bus.(adr := addr);
        state := Read;
      case WriteRequest(addr, data) =>
        bus := bus.(adr := addr, dat := data, sel := ALL_BYTES);
        state := Write;
      case BurstRequest(ext, int_, len, flags) =>
        bus := bus.(adr := ext, we := flags.writeExt);
        burst := Count(len / 4, int_, flags,
                       flags.writeExt && !flags.imem,
                       !flags.writeExt && !flags.imem,
                       !flags.writeExt && flags.imem);
        state := Burst;
      case NoRequest =>
    }

    /** The state that transfers one word of a burst with every acknowledgement. */
    method ClockTransfer(i: Input)
      requires state.Burst1? && !ack
      modifies this
      ensures Value() ==
        if !i.ack then old(Value()).(bus := old(bus).(cyc := true, stb := true))
        else if old(burst).len > 1 then NextTransfer(old(Value()), i)
        else LastTransfer(old(Value()), i)
    {
      bus := bus.(cyc := true, stb := true);
      if i.ack {
        bus := bus.(dat := i.memory, sel := Select(burst.flags.transp, i.memory));
        if burst.len > 1 {
          var hold := burst.len % 16 == 0;
          burst := burst.(len := burst.len - 1);
          if burst.flags.incExt {
            bus := bus.(adr := NextBusAddr(bus.adr));
          }
          if burst.flags.incInt {
            burst := burst.(intAddr := Plus(burst.intAddr, 2));
          }
          if hold {
            bus := bus.(cyc := false, stb := false);
            state := BackOff;
          }
        } else {
          ack := true;
          bus := bus.(cyc := false, stb := false, we := false);
          burst := burst.(dmemRead := false, dmemWrite := false, imemWrite := false);
          state := Idle;
        }
      }
    }

    /** The always-block, without reset. */
    method ClockRegs(i: Input)
      modifies this
      ensures Value() == Step(old(Value()), i)
    {
      bus := bus.(cyc := false, stb := false);
      ack := false;
      readData := i.data;
      match state
      case Idle =>
        ClockIdle(i);
      case Read =>
        bus := bus.(cyc := true, stb := true, we := false);
        if i.ack {
          state := ReadAck;
        }
      case ReadAck =>
        bus := bus.(we := false);
        ack := true;
        state := Idle;
      case Write =>
        bus := bus.(cyc := true, stb := true, we := true);
        if i.ack {
          state := Idle;
          ack := true;
        }
      case BackOff =>
        state := Burst1;
      case Burst =>
        state := Burst0;
      case Burst0 =>
        if burst.flags.writeExt && burst.flags.incInt {
          burst := burst.(intAddr := Plus(burst.intAddr, 2));
        }
        bus := bus.(dat := i.memory, sel := Select(burst.flags.transp, i.memory));
        state := Burst1;
      case Burst1 =>
        ClockTransfer(i);
    }

    /** One clock edge: the memories' outside ports see the registers as they were before it. */
    method Clock(rst: bool, boot: bool, i: Input)
      requires Valid()
      modifies this, dmem, imem
      ensures Valid()
      ensures Value() == if rst then Reset(old(Value()), boot) else Step(old(Value()), i)
      ensures Held() == StepMemories(old(Held()), old(Value()), i)
    {
      ClockMemories(i);
      if rst {
        ResetRegs(boot);
      } else {
        ClockRegs(i);
      }
    }
  }
}

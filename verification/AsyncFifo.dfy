/** The dual-clock FIFO of rtl/verilog/soc/async_fifo.v: Gray pointers, a direction flag driven by
    quadrant comparison, and flags that are set at once and released by their own clock. */
module AsyncFifo {
  import opened Words
  import opened GrayCode

  /** A word of 36 bits. */
  type Data = d: int | 0 <= d < 0x10_0000_0000

  // ------------------------------------------------------------ registers

  datatype Counter = Counter(bin: nat, gray: nat)

  datatype Flags = Flags(p0: bool, p1: bool)

  const RAISED := Flags(true, true)

  /** The registers of a FIFO of 2^aw words. */
  datatype Regs = Regs(
    r: Counter, w: Counter,
    dir: bool,              // going full
    emptyPipe: Flags, fullPipe: Flags,
    mem: seq<Data>, rdata: Data)

  /** One instant: an edge of the read clock, of the write clock, or of both. */
  datatype Edge = Edge(readClk: bool, ren: bool, writeClk: bool, wen: bool, wdata: Data) {
    predicate Reads() {
      readClk && ren
    }

    predicate Writes() {
      writeClk && wen
    }
  }

  function Size(aw: nat): nat {
    Pow2(aw)
  }

  function Advance(c: Counter, inc: bool, size: nat): Counter {
    var sum := if inc then (if c.bin + 1 == size then 0 else c.bin + 1) else c.bin;
    Counter(sum, Gray(sum))
  }

  // -------------------------------------------------------- combinational

  /** The top two bits of a pointer. */
  function Quadrant(aw: nat, c: Counter): nat
    requires aw >= 2
  {
    High(c.gray, aw - 2)
  }

  /** The write pointer is one quadrant behind the read pointer. */
  predicate DirSet(wq: nat, rq: nat) {
    (wq == 0 && rq == 1) || (wq == 1 && rq == 3) || (wq == 3 && rq == 2) || (wq == 2 && rq == 0)
  }

  /** The write pointer is one quadrant ahead. */
  predicate DirClear(wq: nat, rq: nat) {
    (wq == 1 && rq == 0) || (wq == 3 && rq == 1) || (wq == 2 && rq == 3) || (wq == 0 && rq == 2)
  }

  /** The flag moves on a rising edge of one of the two comparisons. */
  function NextDir(dir: bool, wq: nat, rq: nat, wq': nat, rq': nat): bool {
    var clears, sets := DirClear(wq', rq'), DirSet(wq', rq');
    if (!DirClear(wq, rq) && clears) || (!DirSet(wq, rq) && sets) then !clears else dir
  }

  predicate Empty(s: Regs) {
    s.r.gray == s.w.gray && !s.dir
  }

  predicate Full(s: Regs) {
    s.r.gray == s.w.gray && s.dir
  }

  predicate REmpty(s: Regs) {
    s.emptyPipe.p1
  }

  predicate WFull(s: Regs) {
    s.fullPipe.p1
  }

  /** A flag's pipe: raised without waiting for a clock, lowered by two clock edges. */
  function NextFlags(f: Flags, clk: bool, now: bool, next: bool): Flags {
    if !now && next then RAISED
    else if clk && now then RAISED
    else if clk then Flags(false, f.p0)
    else f
  }

  ghost predicate WellTyped(aw: nat, s: Regs) {
    aw >= 2 && |s.mem| == Size(aw) && s.r.gray < Size(aw) && s.w.gray < Size(aw)
  }

  function Pointers(aw: nat, s: Regs, e: Edge): Regs
    requires aw >= 2
  {
    var r := if e.readClk then Advance(s.r, e.ren, Size(aw)) else s.r;
    var w := if e.writeClk then Advance(s.w, e.wen, Size(aw)) else s.w;
    s.(r := r, w := w,
       dir := NextDir(s.dir, Quadrant(aw, s.w), Quadrant(aw, s.r), Quadrant(aw, w), Quadrant(aw, r)))
  }

  function Step(aw: nat, s: Regs, e: Edge): Regs
    requires WellTyped(aw, s)
  {
    var t := Pointers(aw, s, e);
    t.(emptyPipe := NextFlags(s.emptyPipe, e.readClk, Empty(s), Empty(t)),
       fullPipe := NextFlags(s.fullPipe, e.writeClk, Full(s), Full(t)),
       mem := if e.Writes() then s.mem[s.w.gray := e.wdata] else s.mem,
       rdata := if e.readClk then s.mem[s.r.gray] else s.rdata)
  }

  function Reset(mem: seq<Data>, rdata: Data): Regs {
    Regs(Counter(0, 0), Counter(0, 0), false, RAISED, Flags(false, false), mem, rdata)
  }

  // ------------------------------------------------------------ the device

  class Fifo {
    const aw: nat
    const mem: array<Data>
    var r: Counter
    var w: Counter
    var dir: bool
    var emptyPipe: Flags
    var fullPipe: Flags
    var rdata: Data

    function State(): Regs
      reads this, mem
    {
      Regs(r, w, dir, emptyPipe, fullPipe, mem[..], rdata)
    }

    constructor (aw: nat)
      requires aw >= 2
      ensures this.aw == aw && fresh(mem) && mem.Length == Size(aw)
      ensures State() == Reset(mem[..], 0)
    {
      this.aw := aw;
      mem := new Data[Size(aw)](_ => 0);
      r, w := Counter(0, 0), Counter(0, 0);
      dir := false;
      emptyPipe, fullPipe := RAISED, Flags(false, false);
      rdata := 0;
    }

    /** The memory block's two ports. */
    method ClockMemory(e: Edge)
      requires WellTyped(aw, State())
      modifies this`rdata, mem
      ensures rdata == (if e.readClk then old(mem[r.gray]) else old(rdata))
      ensures mem[..] == if e.Writes() then old(mem[..])[w.gray := e.wdata] else old(mem[..])
    {
      if e.readClk {
        rdata := mem[r.gray];
      }
      if e.Writes() {
        mem[w.gray] := e.wdata;
      }
    }

    /** The two counters, and the direction flag behind them. */
    method ClockPointers(e: Edge)
      requires aw >= 2
      modifies this`r, this`w, this`dir
      ensures State() == Pointers(aw, old(State()), e)
    {
      var wq, rq := Quadrant(aw, w), Quadrant(aw, r);
      if e.readClk {
        r := Advance(r, e.ren, Size(aw));
      }
      if e.writeClk {
        w := Advance(w, e.wen, Size(aw));
      }
      dir := NextDir(dir, wq, rq, Quadrant(aw, w), Quadrant(aw, r));
    }

    method Clock(e: Edge)
      requires WellTyped(aw, State())
      modifies this, mem
      ensures State() == Step(aw, old(State()), e)
    {
      var wasEmpty, wasFull := Empty(State()), Full(State());
      ClockMemory(e);
      ClockPointers(e);
      emptyPipe := NextFlags(emptyPipe, e.readClk, wasEmpty, Empty(State()));
      fullPipe := NextFlags(fullPipe, e.writeClk, wasFull, Full(State()));
    }
  }

  // ---------------------------------------------------- pointer arithmetic

  /** Where the `n`-th word goes. */
  function Pos(size: nat, n: nat): (p: nat)
    requires size > 0
    ensures p < size
  {
    if n == 0 then 0 else if Pos(size, n - 1) + 1 == size then 0 else Pos(size, n - 1) + 1
  }

  lemma {:induction false} PosApart(size: nat, n: nat, m: nat)
    requires size > 0 && n <= m <= n + size
    ensures Pos(size, m) == Pos(size, n) + (m - n) || Pos(size, m) == Pos(size, n) + (m - n) - size
  {
    if n < m {
      PosApart(size, n, m - 1);
    }
  }

  function PointerAt(size: nat, n: nat): Counter
    requires size > 0
  {
    Counter(Pos(size, n), Gray(Pos(size, n)))
  }

  /** The quarter of the memory a position lies in, and its Gray code. */
  function Quarter(q: nat, p: nat): nat {
    if p < q then 0 else if p < 2 * q then 1 else if p < 3 * q then 2 else 3
  }

  function Code(quarter: nat): nat {
    if quarter == 0 then 0 else if quarter == 1 then 1 else if quarter == 2 then 3 else 2
  }

  lemma FourQuarters(aw: nat)
    requires aw >= 2
    ensures Size(aw) == 4 * Pow2(aw - 2)
  {
    assert Pow2(aw) == 2 * Pow2(aw - 1);
  }

  lemma SmallGray(q: nat)
    requires q < 4
    ensures Gray(q) == Code(q)
  {
    assert Gray(0) == 0 && Gray(1) == 1;
    assert Gray(2) == 3 && Gray(3) == 2;
  }

  lemma QuadrantOf(aw: nat, p: nat)
    requires aw >= 2 && p < Size(aw)
    ensures High(Gray(p), aw - 2) == Code(Quarter(Pow2(aw - 2), p))
  {
    var q, h := Pow2(aw - 2), High(p, aw - 2);
    FourQuarters(aw);
    GrayTop(p, aw - 2);
    HighBounds(p, aw - 2);
    HighIsQuarter(q, p, h);
    SmallGray(h);
  }

  lemma HighIsQuarter(q: nat, p: nat, h: nat)
    requires q >= 1 && q * h <= p < q * h + q && p < 4 * q
    ensures h < 4 && h == Quarter(q, p)
  {
    if h >= 4 {
      MulMonotone(q, 4, h);
    } else if h == 0 {
      assert q * h == 0;
    } else if h == 1 {
      assert q * h == q;
    } else if h == 2 {
      assert q * h == 2 * q;
    } else {
      assert q * h == 3 * q;
    }
  }

  lemma MulMonotone(q: nat, a: nat, b: nat)
    requires a <= b
    ensures q * a <= q * b
  {
  }
}

/** The FIFO hands out the words it took, in order, and its flags never let it over- or underrun. */
module FifoCorrect {
  import opened Words
  import opened GrayCode
  import opened AsyncFifo

  // ------------------------------------------------- the direction flag

  /** The direction flag against the read position `a`, the write position `b` and the number of
      words `c` between them, in quarters of `q` words: it is settled one quarter ahead and one
      behind, and tells a nearly full memory from a nearly empty one in the same quarter. */
  predicate DirOk(q: nat, dir: bool, a: nat, b: nat, c: nat) {
    var x, y := Quarter(q, a), Quarter(q, b);
    && (DirClear(Code(y), Code(x)) ==> !dir)
    && (DirSet(Code(y), Code(x)) ==> dir)
    && (x == y ==> (dir <==> c > 2 * q))
  }

  predicate Between(q: nat, a: nat, b: nat, c: nat) {
    q >= 1 && a < 4 * q && b < 4 * q && c <= 4 * q && (b == a + c || b == a + c - 4 * q)
  }

  function NextPos(q: nat, p: nat): nat {
    if p + 1 == 4 * q then 0 else p + 1
  }

  function DirAfter(q: nat, dir: bool, a: nat, b: nat, a': nat, b': nat): bool {
    NextDir(dir, Code(Quarter(q, b)), Code(Quarter(q, a)), Code(Quarter(q, b')), Code(Quarter(q, a')))
  }

  lemma WriteKeepsDir(q: nat, dir: bool, a: nat, b: nat, c: nat)
    requires Between(q, a, b, c) && DirOk(q, dir, a, b, c) && c < 4 * q
    ensures Between(q, a, NextPos(q, b), c + 1)
    ensures DirOk(q, DirAfter(q, dir, a, b, a, NextPos(q, b)), a, NextPos(q, b), c + 1)
  {
  }

  lemma ReadKeepsDir(q: nat, dir: bool, a: nat, b: nat, c: nat)
    requires Between(q, a, b, c) && DirOk(q, dir, a, b, c) && c > 0
    ensures Between(q, NextPos(q, a), b, c - 1)
    ensures DirOk(q, DirAfter(q, dir, a, b, NextPos(q, a), b), NextPos(q, a), b, c - 1)
  {
  }

  lemma BothKeepDir(q: nat, dir: bool, a: nat, b: nat, c: nat)
    requires Between(q, a, b, c) && DirOk(q, dir, a, b, c) && 0 < c < 4 * q
    ensures Between(q, NextPos(q, a), NextPos(q, b), c)
    ensures DirOk(q, DirAfter(q, dir, a, b, NextPos(q, a), NextPos(q, b)), NextPos(q, a), NextPos(q, b), c)
  {
  }

  lemma NoneKeepDir(q: nat, dir: bool, a: nat, b: nat)
    ensures DirAfter(q, dir, a, b, a, b) == dir
  {
  }

  function Moved(q: nat, p: nat, go: bool): nat {
    if go then NextPos(q, p) else p
  }

  lemma DirKept(q: nat, dir: bool, a: nat, b: nat, c: nat, read: bool, write: bool)
    requires Between(q, a, b, c) && DirOk(q, dir, a, b, c)
    requires (read ==> c > 0) && (write ==> c < 4 * q)
    ensures DirOk(q, DirAfter(q, dir, a, b, Moved(q, a, read), Moved(q, b, write)),
                  Moved(q, a, read), Moved(q, b, write), c + Bit(write) - Bit(read))
  {
    if read && write {
      BothKeepDir(q, dir, a, b, c);
    } else if read {
      ReadKeepsDir(q, dir, a, b, c);
    } else if write {
      WriteKeepsDir(q, dir, a, b, c);
    } else {
      NoneKeepDir(q, dir, a, b);
    }
  }

  /** Equal positions: the flag tells whether nothing or everything lies between them. */
  lemma DirTells(q: nat, dir: bool, a: nat, b: nat, c: nat)
    requires Between(q, a, b, c) && DirOk(q, dir, a, b, c)
    ensures a == b && !dir <==> c == 0
    ensures a == b && dir <==> c == 4 * q
  {
  }

  // --------------------------------------------------------- the invariant

  /** The words written so far, and how many of them have been read. */
  datatype History = History(written: seq<Data>, taken: nat)

  ghost predicate PointersOk(aw: nat, s: Regs, n: nat, m: nat) {
    && aw >= 2 && n <= m <= n + Size(aw)
    && s.r == PointerAt(Size(aw), n)
    && s.w == PointerAt(Size(aw), m)
    && DirOk(Pow2(aw - 2), s.dir, s.r.bin, s.w.bin, m - n)
  }

  ghost predicate MemoryOk(aw: nat, s: Regs, h: History) {
    && |s.mem| == Size(aw)
    && forall i: nat :: h.taken <= i < |h.written| ==>
         Gray(Pos(Size(aw), i)) < Size(aw) && s.mem[Gray(Pos(Size(aw), i))] == h.written[i]
  }

  ghost predicate FlagsOk(aw: nat, s: Regs, n: nat, m: nat) {
    && (m == n ==> s.emptyPipe == RAISED)
    && (m == n + Size(aw) ==> s.fullPipe == RAISED)
  }

  ghost predicate Inv(aw: nat, s: Regs, h: History) {
    && PointersOk(aw, s, h.taken, |h.written|)
    && MemoryOk(aw, s, h)
    && FlagsOk(aw, s, h.taken, |h.written|)
  }

  /** The writer looks at `wfull`, the reader at `rempty`. */
  predicate Polite(s: Regs, e: Edge) {
    (e.Writes() ==> !WFull(s)) && (e.Reads() ==> !REmpty(s))
  }

  function Record(h: History, e: Edge): History {
    History(if e.Writes() then h.written + [e.wdata] else h.written,
            if e.Reads() then h.taken + 1 else h.taken)
  }

  lemma PointersBetween(aw: nat, s: Regs, n: nat, m: nat)
    requires PointersOk(aw, s, n, m)
    ensures Between(Pow2(aw - 2), s.r.bin, s.w.bin, m - n)
    ensures s.r.gray < Size(aw) && s.w.gray < Size(aw)
    ensures Quadrant(aw, s.r) == Code(Quarter(Pow2(aw - 2), s.r.bin))
    ensures Quadrant(aw, s.w) == Code(Quarter(Pow2(aw - 2), s.w.bin))
    ensures Size(aw) == 4 * Pow2(aw - 2)
  {
    FourQuarters(aw);
    PosApart(Size(aw), n, m);
    GrayBound(s.r.bin, aw);
    GrayBound(s.w.bin, aw);
    QuadrantOf(aw, s.r.bin);
    QuadrantOf(aw, s.w.bin);
  }

  /** Emptiness and fullness as the hardware computes them are exact. */
  lemma FlagsExact(aw: nat, s: Regs, n: nat, m: nat)
    requires PointersOk(aw, s, n, m)
    ensures Empty(s) <==> m == n
    ensures Full(s) <==> m == n + Size(aw)
  {
    PointersBetween(aw, s, n, m);
    if s.r.gray == s.w.gray {
      GrayInjective(s.r.bin, s.w.bin);
    }
    DirTells(Pow2(aw - 2), s.dir, s.r.bin, s.w.bin, m - n);
  }

  lemma AdvancePointer(aw: nat, n: nat, inc: bool, q: nat)
    requires Size(aw) == 4 * q
    ensures Advance(PointerAt(Size(aw), n), inc, Size(aw)) == PointerAt(Size(aw), if inc then n + 1 else n)
    ensures Pos(Size(aw), if inc then n + 1 else n) == Moved(q, Pos(Size(aw), n), inc)
  {
  }

  lemma PointersMove(aw: nat, s: Regs, n: nat, m: nat, e: Edge, n': nat, m': nat)
    requires PointersOk(aw, s, n, m)
    requires n' == (if e.Reads() then n + 1 else n) && m' == (if e.Writes() then m + 1 else m)
    ensures Pointers(aw, s, e).r == PointerAt(Size(aw), n') && Pointers(aw, s, e).w == PointerAt(Size(aw), m')
    ensures Pointers(aw, s, e).r.bin == Moved(Pow2(aw - 2), s.r.bin, e.Reads())
    ensures Pointers(aw, s, e).w.bin == Moved(Pow2(aw - 2), s.w.bin, e.Writes())
  {
    FourQuarters(aw);
    AdvancePointer(aw, n, e.ren, Pow2(aw - 2));
    AdvancePointer(aw, m, e.wen, Pow2(aw - 2));
  }

  lemma DirMoves(aw: nat, s: Regs, n: nat, m: nat, e: Edge, n': nat, m': nat)
    requires PointersOk(aw, s, n, m)
    requires n' == (if e.Reads() then n + 1 else n) && m' == (if e.Writes() then m + 1 else m)
    ensures var t := Pointers(aw, s, e);
      t.dir == DirAfter(Pow2(aw - 2), s.dir, s.r.bin, s.w.bin, t.r.bin, t.w.bin)
  {
    PointersBetween(aw, s, n, m);
    PointersMove(aw, s, n, m, e, n', m');
    QuadrantOf(aw, Pointers(aw, s, e).r.bin);
    QuadrantOf(aw, Pointers(aw, s, e).w.bin);
  }

  lemma PointersStep(aw: nat, s: Regs, n: nat, m: nat, e: Edge, n': nat, m': nat)
    requires PointersOk(aw, s, n, m)
    requires e.Reads() ==> n < m
    requires e.Writes() ==> m < n + Size(aw)
    requires n' == (if e.Reads() then n + 1 else n) && m' == (if e.Writes() then m + 1 else m)
    ensures PointersOk(aw, Pointers(aw, s, e), n', m')
  {
    PointersBetween(aw, s, n, m);
    PointersMove(aw, s, n, m, e, n', m');
    DirMoves(aw, s, n, m, e, n', m');
    DirKept(Pow2(aw - 2), s.dir, s.r.bin, s.w.bin, m - n, e.Reads(), e.Writes());
  }

  /** Words in flight lie at different addresses. */
  lemma PlacesApart(size: nat, i: nat, m: nat)
    requires size > 0 && i < m < i + size
    ensures Gray(Pos(size, i)) != Gray(Pos(size, m))
  {
    PosApart(size, i, m);
    if Gray(Pos(size, i)) == Gray(Pos(size, m)) {
      GrayInjective(Pos(size, i), Pos(size, m));
    }
  }

  lemma MemoryStep(aw: nat, s: Regs, h: History, e: Edge)
    requires Inv(aw, s, h) && WellTyped(aw, s)
    requires e.Writes() ==> |h.written| < h.taken + Size(aw)
    ensures MemoryOk(aw, Step(aw, s, e), Record(h, e))
  {
    var m, h', t := |h.written|, Record(h, e), Step(aw, s, e);
    GrayBound(Pos(Size(aw), m), aw);
    forall i: nat | h'.taken <= i < |h'.written|
      ensures Gray(Pos(Size(aw), i)) < Size(aw) && t.mem[Gray(Pos(Size(aw), i))] == h'.written[i]
    {
      if i < m && e.Writes() {
        PlacesApart(Size(aw), i, m);
      }
    }
  }

  lemma WellTypedInv(aw: nat, s: Regs, h: History)
    requires Inv(aw, s, h)
    ensures WellTyped(aw, s)
  {
    PointersBetween(aw, s, h.taken, |h.written|);
  }

  /** One edge: polite use keeps the FIFO consistent, and a read presents the oldest word. */
  lemma StepKeeps(aw: nat, s: Regs, h: History, e: Edge)
    requires Inv(aw, s, h) && WellTyped(aw, s) && Polite(s, e)
    ensures Inv(aw, Step(aw, s, e), Record(h, e))
    ensures e.Reads() ==> h.taken < |h.written| && Step(aw, s, e).rdata == h.written[h.taken]
  {
    var n, m := h.taken, |h.written|;
    var h', t := Record(h, e), Step(aw, s, e);
    PointersStep(aw, s, n, m, e, h'.taken, |h'.written|);
    MemoryStep(aw, s, h, e);
    FlagsExact(aw, s, n, m);
    FlagsExact(aw, t, h'.taken, |h'.written|);
  }

  // ------------------------------------------------------------ whole runs

  function Run(aw: nat, s: Regs, es: seq<Edge>): Regs
    requires aw >= 2
  {
    if es == [] then s
    else
      var t := Run(aw, s, es[..|es| - 1]);
      if |t.mem| == Size(aw) && t.r.gray < Size(aw) && t.w.gray < Size(aw) then Step(aw, t, es[|es| - 1]) else t
  }

  ghost predicate PoliteRun(aw: nat, s: Regs, es: seq<Edge>)
    requires aw >= 2
  {
    es == [] || (PoliteRun(aw, s, es[..|es| - 1]) && Polite(Run(aw, s, es[..|es| - 1]), es[|es| - 1]))
  }

  /** The words written over a run, and the words its reads present. */
  function Taken(es: seq<Edge>): seq<Data> {
    if es == [] then []
    else Taken(es[..|es| - 1]) + (if es[|es| - 1].Writes() then [es[|es| - 1].wdata] else [])
  }

  function Presented(aw: nat, s: Regs, es: seq<Edge>): seq<Data>
    requires aw >= 2
  {
    if es == [] then []
    else
      Presented(aw, s, es[..|es| - 1]) + (if es[|es| - 1].Reads() then [Run(aw, s, es).rdata] else [])
  }

  /** The words given are the first of the words taken in, and the rest is in the memory. */
  ghost predicate Ordered(aw: nat, s: Regs, wrote: seq<Data>, given: seq<Data>) {
    |given| <= |wrote| && given == wrote[..|given|] && Inv(aw, s, History(wrote, |given|))
  }

  /** One more word at either end. */
  lemma GivenNext(wrote: seq<Data>, given: seq<Data>, more: seq<Data>, taken: bool, word: Data)
    requires |given| <= |wrote| && given == wrote[..|given|]
    requires taken ==> |given| < |wrote| && word == wrote[|given|]
    ensures var now := if taken then given + [word] else given;
      |now| <= |wrote + more| && now == (wrote + more)[..|now|]
  {
  }

  lemma OrderStep(aw: nat, s: Regs, e: Edge, wrote: seq<Data>, given: seq<Data>)
    requires Ordered(aw, s, wrote, given) && Polite(s, e)
    ensures WellTyped(aw, s)
    ensures Ordered(aw, Step(aw, s, e), if e.Writes() then wrote + [e.wdata] else wrote,
                    if e.Reads() then given + [Step(aw, s, e).rdata] else given)
  {
    var h := History(wrote, |given|);
    WellTypedInv(aw, s, h);
    StepKeeps(aw, s, h, e);
    var more: seq<Data> := if e.Writes() then [e.wdata] else [];
    GivenNext(wrote, given, more, e.Reads(), Step(aw, s, e).rdata);
    assert e.Writes() || wrote + more == wrote;
  }

  lemma OrderedBounds(aw: nat, s: Regs, wrote: seq<Data>, given: seq<Data>)
    requires Ordered(aw, s, wrote, given)
    ensures |given| <= |wrote| <= |given| + Size(aw)
    ensures |wrote| == |given| ==> REmpty(s)
    ensures |wrote| == |given| + Size(aw) ==> WFull(s)
  {
  }

  lemma LastStep(aw: nat, s: Regs, es: seq<Edge>)
    requires aw >= 2 && es != [] && WellTyped(aw, Run(aw, s, es[..|es| - 1]))
    ensures Run(aw, s, es) == Step(aw, Run(aw, s, es[..|es| - 1]), es[|es| - 1])
  {
  }

  lemma TakenLast(es: seq<Edge>)
    requires es != []
    ensures var init, e := es[..|es| - 1], es[|es| - 1];
      Taken(es) == if e.Writes() then Taken(init) + [e.wdata] else Taken(init)
  {
  }

  lemma PresentedLast(aw: nat, s: Regs, es: seq<Edge>, t: Regs)
    requires aw >= 2 && es != [] && Run(aw, s, es) == t
    ensures var init, e := es[..|es| - 1], es[|es| - 1];
      Presented(aw, s, es) == if e.Reads() then Presented(aw, s, init) + [t.rdata] else Presented(aw, s, init)
  {
  }

  lemma {:induction false} RunOrdered(aw: nat, s0: Regs, es: seq<Edge>)
    requires aw >= 2 && Ordered(aw, s0, [], []) && PoliteRun(aw, s0, es)
    ensures Ordered(aw, Run(aw, s0, es), Taken(es), Presented(aw, s0, es))
  {
    if es != [] {
      var init, e := es[..|es| - 1], es[|es| - 1];
      var s := Run(aw, s0, init);
      RunOrdered(aw, s0, init);
      OrderStep(aw, s, e, Taken(init), Presented(aw, s0, init));
      LastStep(aw, s0, es);
      TakenLast(es);
      PresentedLast(aw, s0, es, Step(aw, s, e));
    }
  }

  lemma ResetOrdered(aw: nat, mem: seq<Data>, rdata: Data)
    requires aw >= 2 && |mem| == Size(aw)
    ensures Ordered(aw, Reset(mem, rdata), [], [])
  {
    FourQuarters(aw);
  }

  /** Under every interleaving of read and write clock edges, the occupancy stays within the memory,
      the flags are never optimistic, and the words read are the words written, in order. */
  lemma FifoOrder(aw: nat, mem: seq<Data>, rdata: Data, es: seq<Edge>)
    requires aw >= 2 && |mem| == Size(aw) && PoliteRun(aw, Reset(mem, rdata), es)
    ensures var s, wrote, given := Run(aw, Reset(mem, rdata), es), Taken(es), Presented(aw, Reset(mem, rdata), es);
      && |given| <= |wrote| <= |given| + Size(aw)
      && given == wrote[..|given|]
      && (|wrote| == |given| ==> REmpty(s))
      && (|wrote| == |given| + Size(aw) ==> WFull(s))
  {
    ResetOrdered(aw, mem, rdata);
    RunOrdered(aw, Reset(mem, rdata), es);
    OrderedBounds(aw, Run(aw, Reset(mem, rdata), es), Taken(es), Presented(aw, Reset(mem, rdata), es));
  }

  /** The read-clock edges, and the write-clock edges, after the first `k` edges of a run. */
  function ReadEdges(es: seq<Edge>, k: nat): nat {
    if |es| <= k then 0 else ReadEdges(es[..|es| - 1], k) + Bit(es[|es| - 1].readClk)
  }

  function WriteEdges(es: seq<Edge>, k: nat): nat {
    if |es| <= k then 0 else WriteEdges(es[..|es| - 1], k) + Bit(es[|es| - 1].writeClk)
  }

  lemma StepAfterReset(aw: nat, mem: seq<Data>, rdata: Data, es: seq<Edge>)
    requires aw >= 2 && |mem| == Size(aw) && es != [] && PoliteRun(aw, Reset(mem, rdata), es)
    ensures WellTyped(aw, Run(aw, Reset(mem, rdata), es[..|es| - 1]))
    ensures Run(aw, Reset(mem, rdata), es) == Step(aw, Run(aw, Reset(mem, rdata), es[..|es| - 1]), es[|es| - 1])
  {
    var init, s0 := es[..|es| - 1], Reset(mem, rdata);
    ResetOrdered(aw, mem, rdata);
    RunOrdered(aw, s0, init);
    WellTypedInv(aw, Run(aw, s0, init), History(Taken(init), |Presented(aw, s0, init)|));
    LastStep(aw, s0, es);
  }

  /** The flags are not stuck: while the FIFO is not empty, two edges of the read clock lower `rempty`,
      whatever the write clock does meanwhile. */
  lemma {:induction false} EmptyFlagFalls(aw: nat, mem: seq<Data>, rdata: Data, es: seq<Edge>, k: nat)
    requires aw >= 2 && |mem| == Size(aw) && k <= |es| && PoliteRun(aw, Reset(mem, rdata), es)
    requires forall j :: k <= j <= |es| ==> !Empty(Run(aw, Reset(mem, rdata), es[..j]))
    ensures ReadEdges(es, k) >= 1 ==> !Run(aw, Reset(mem, rdata), es).emptyPipe.p0
    ensures ReadEdges(es, k) >= 2 ==> !REmpty(Run(aw, Reset(mem, rdata), es))
    decreases |es|
  {
    if k < |es| {
      var init := es[..|es| - 1];
      forall j | k <= j <= |init|
        ensures init[..j] == es[..j]
      {
      }
      assert es[..|es|] == es;
      StepAfterReset(aw, mem, rdata, es);
      EmptyFlagFalls(aw, mem, rdata, init, k);
    }
  }

  /** While it is not full, two edges of the write clock lower `wfull`. */
  lemma {:induction false} FullFlagFalls(aw: nat, mem: seq<Data>, rdata: Data, es: seq<Edge>, k: nat)
    requires aw >= 2 && |mem| == Size(aw) && k <= |es| && PoliteRun(aw, Reset(mem, rdata), es)
    requires forall j :: k <= j <= |es| ==> !Full(Run(aw, Reset(mem, rdata), es[..j]))
    ensures WriteEdges(es, k) >= 1 ==> !Run(aw, Reset(mem, rdata), es).fullPipe.p0
    ensures WriteEdges(es, k) >= 2 ==> !WFull(Run(aw, Reset(mem, rdata), es))
    decreases |es|
  {
    if k < |es| {
      var init := es[..|es| - 1];
      forall j | k <= j <= |init|
        ensures init[..j] == es[..j]
      {
      }
      assert es[..|es|] == es;
      StepAfterReset(aw, mem, rdata, es);
      FullFlagFalls(aw, mem, rdata, init, k);
    }
  }
}

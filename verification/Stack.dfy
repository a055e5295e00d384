/** The hardware stack pointer of rtl/verilog/sp.v, and the function prologue and epilogue of the
    compiler port in sw/tools/gcc/config/ajardsp/ajardsp.c over it. */
module Stack {
  import opened Words

  type Word = w: int | 0 <= w < WORD_SPAN

  // ----------------------------------------------------- the stack pointer

  /** One side of the pair of load-store units: nothing, a push or a pop of one or two words. */
  datatype Access = Rest | Push(width: nat) | Pop(width: nat)

  /** The combination that the source calls illegal: a push beside a pop. */
  predicate Mixed(a: Access, b: Access) {
    (a.Push? && b.Pop?) || (a.Pop? && b.Push?)
  }

  /** The addresses for both units, and the next stack pointer: pushes count down before, pops count up
      after. */
  function PairAddresses(sp: Addr, a: Access, b: Access): (Addr, Addr) {
    if Mixed(a, b) then (sp, sp)
    else if a.Push? && b.Push? then (Plus(sp, 0 - a.width), Plus(sp, 0 - a.width - b.width))
    else if a.Push? then (Plus(sp, 0 - a.width), sp)
    else if b.Push? then (sp, Plus(sp, 0 - b.width))
    else if a.Pop? then (sp, Plus(sp, a.width))
    else (sp, sp)
  }

  function NextSp(sp: Addr, a: Access, b: Access, write: Option<Addr>): Addr {
    var (sp0, sp1) := PairAddresses(sp, a, b);
    if write.Some? then write.value
    else if b.Pop? then Plus(sp1, b.width)
    else if b.Push? || a.Pop? then sp1
    else if a.Push? then sp0
    else sp
  }

  function Alone(sp: Addr, a: Access): Addr {
    NextSp(sp, a, Rest, None)
  }

  class StackPointer {
    var sp: Addr

    constructor ()
      ensures sp == 0
    {
      sp := 0;
    }

    /** The combinational block: pushes count down before the access, pops up after it. */
    method Addresses(a: Access, b: Access) returns (sp0: Addr, sp1: Addr)
      ensures (sp0, sp1) == PairAddresses(sp, a, b)
    {
      sp0, sp1 := sp, sp;
      if !Mixed(a, b) {
        if a.Push? && b.Push? {
          sp0 := Plus(sp, 0 - a.width);
          sp1 := Plus(sp, 0 - (a.width + b.width));
        } else if a.Push? {
          sp0 := Plus(sp, 0 - a.width);
        } else if b.Push? {
          sp1 := Plus(sp, 0 - b.width);
        } else if a.Pop? {
          sp1 := Plus(sp, a.width);
        }
      }
    }

    /** One clock edge; the addresses are those the units saw before it. */
    method Clock(rst: bool, clkEn: bool, a: Access, b: Access, write: Option<Addr>) returns (addresses: (Addr, Addr))
      modifies this
      ensures addresses == PairAddresses(old(sp), a, b)
      ensures sp == if rst then 0 else if clkEn then NextSp(old(sp), a, b, write) else old(sp)
      ensures !rst && clkEn && write.None? && !Mixed(a, b) ==> sp == Alone(Alone(old(sp), a), b)
    {
      if !Mixed(a, b) {
        PairIsTwoSingles(sp, a, b);
      }
      var sp0, sp1 := Addresses(a, b);
      addresses := (sp0, sp1);
      if rst {
        sp := 0;
      } else if clkEn {
        if write.Some? {
          sp := write.value;
        } else if b.Pop? {
          sp := Plus(sp1, b.width);
        } else if b.Push? || a.Pop? {
          sp := sp1;
        } else if a.Push? {
          sp := sp0;
        }
      }
    }
  }

  /** Two pushes, or two pops, in one packet move the stack pointer like the two in order, and see the
      addresses they would see then. Only a push beside a pop is excluded. */
  lemma PairIsTwoSingles(sp: Addr, a: Access, b: Access)
    requires !Mixed(a, b)
    ensures NextSp(sp, a, b, None) == Alone(Alone(sp, a), b)
    ensures !a.Rest? ==> PairAddresses(sp, a, b).0 == PairAddresses(sp, a, Rest).0
    ensures b.Push? ==> PairAddresses(sp, a, b).1 == Alone(Alone(sp, a), b)
    ensures b.Pop? ==> PairAddresses(sp, a, b).1 == Alone(sp, a)
  {
    if a.Push? && b.Push? {
      PlusPlus(sp, 0 - a.width, 0 - b.width);
    }
  }

  // ------------------------------------------------------------- the machine

  /** The registers a function deals with: pointers 0 to 7 and accumulator halves 8 to 23, of which 7
      is the frame pointer, the stack pointer and the return address. */
  datatype Reg = General(index: nat) | Sp | Retpc

  const GENERAL := 24
  const FP := General(7)

  type File = f: seq<Word> | |f| == GENERAL witness seq(GENERAL, _ => 0)
  type Memory = m: seq<Word> | |m| == WORD_SPAN witness seq(WORD_SPAN, _ => 0)

  datatype Machine = Machine(file: File, sp: Addr, retpc: Word, mem: Memory) {
    function Get(r: Reg): Word {
      match r
      case General(i) => if i < GENERAL then file[i] else 0
      case Sp => sp
      case Retpc => retpc
    }

    function Set(r: Reg, w: Word): Machine {
      match r
      case General(i) => if i < GENERAL then this.(file := file[i := w]) else this
      case Sp => this.(sp := w)
      case Retpc => this.(retpc := w)
    }
  }

  datatype Insn =
    | PushReg(r: Reg) | PopReg(r: Reg)
    | FrameFromSp | LowerFrame(amount: nat) | SwapSpFrame
    | NopInsn | Return

  /** A popped stack pointer is written after it has been counted up. */
  function Exec(m: Machine, i: Insn): Machine {
    match i
    case PushReg(r) =>
      var sp := Alone(m.sp, Push(1));
      m.(sp := sp, mem := m.mem[sp := m.Get(r)])
    case PopReg(r) => m.(sp := Alone(m.sp, Pop(1))).Set(r, m.mem[m.sp])
    case FrameFromSp => m.Set(FP, m.sp)
    case LowerFrame(amount) => m.Set(FP, Plus(m.Get(FP), 0 - amount))
    case SwapSpFrame => m.(sp := m.Get(FP)).Set(FP, m.sp)
    case NopInsn => m
    case Return => m
  }

  function Run(m: Machine, code: seq<Insn>): Machine {
    if code == [] then m else Exec(Run(m, code[..|code| - 1]), code[|code| - 1])
  }

  // -------------------------------------------------- prologue and epilogue

  const REGISTERS := 30

  /** Neither fixed nor free for a called function to change: pointers 4 to 6 and accumulators 4 to 7. */
  predicate CalleeSaved(i: nat) {
    4 <= i <= 6 || 16 <= i <= 23
  }

  /** The callee-saved registers below `n` that the function uses, in the order they are pushed. */
  function SavedBelow(live: seq<bool>, n: nat): (rs: seq<Reg>)
    requires |live| == REGISTERS && n <= REGISTERS
  {
    if n == 0 then []
    else SavedBelow(live, n - 1) + (if live[n - 1] && CalleeSaved(n - 1) then [General(n - 1)] else [])
  }

  function Pushes(rs: seq<Reg>): (code: seq<Insn>)
    ensures |code| == |rs|
  {
    if rs == [] then [] else Pushes(rs[..|rs| - 1]) + [PushReg(rs[|rs| - 1])]
  }

  /** The last one pushed comes off first. */
  function Pops(rs: seq<Reg>): (code: seq<Insn>)
    ensures |code| == |rs|
  {
    if rs == [] then [] else [PopReg(rs[|rs| - 1])] + Pops(rs[..|rs| - 1])
  }

  lemma PushesLast(rs: seq<Reg>, r: Reg)
    ensures Pushes(rs + [r]) == Pushes(rs) + [PushReg(r)]
  {
    assert (rs + [r])[..|rs|] == rs;
  }

  lemma PopsLast(rs: seq<Reg>, r: Reg)
    ensures Pops(rs + [r]) == [PopReg(r)] + Pops(rs)
  {
    assert (rs + [r])[..|rs|] == rs;
  }

  lemma SavedNext(live: seq<bool>, i: nat)
    requires |live| == REGISTERS && i < REGISTERS
    ensures var saved, next := SavedBelow(live, i), SavedBelow(live, i + 1);
      if live[i] && CalleeSaved(i) then
        Pushes(next) == Pushes(saved) + [PushReg(General(i))] && Pops(next) == [PopReg(General(i))] + Pops(saved)
      else next == saved
  {
    PushesLast(SavedBelow(live, i), General(i));
    PopsLast(SavedBelow(live, i), General(i));
  }

  function Entry(frame: nat): seq<Insn> {
    [PushReg(FP), FrameFromSp, PushReg(Retpc)]
    + if frame > 0 then [LowerFrame(frame + 2), SwapSpFrame, NopInsn, PushReg(FP)] else []
  }

  function Exit(frame: nat): seq<Insn> {
    (if frame > 0 then [PopReg(Sp)] else []) + [PopReg(Retpc), PopReg(FP), Return]
  }

  method EntryCode(frame: nat) returns (code: seq<Insn>)
    ensures code == Entry(frame)
  {
    code := [PushReg(FP), FrameFromSp, PushReg(Retpc)];
    if frame > 0 {
      code := code + [LowerFrame(frame + 2), SwapSpFrame, NopInsn, PushReg(FP)];
    }
  }

  method Prologue(frame: nat, live: seq<bool>) returns (code: seq<Insn>)
    requires |live| == REGISTERS
    ensures code == Entry(frame) + Pushes(SavedBelow(live, |live|))
  {
    code := EntryCode(frame);
    var i := 0;
    while i < |live|
      invariant 0 <= i <= |live|
      invariant code == Entry(frame) + Pushes(SavedBelow(live, i))
    {
      if live[i] && CalleeSaved(i) {
        code := code + [PushReg(General(i))];
      }
      SavedNext(live, i);
      i := i + 1;
    }
  }

  method Epilogue(frame: nat, live: seq<bool>) returns (code: seq<Insn>)
    requires |live| == REGISTERS
    ensures code == Pops(SavedBelow(live, |live|)) + Exit(frame)
  {
    code := [];
    var i := |live|;
    while i > 0
      invariant 0 <= i <= |live|
      invariant code + Pops(SavedBelow(live, i)) == Pops(SavedBelow(live, |live|))
    {
      i := i - 1;
      if live[i] && CalleeSaved(i) {
        code := code + [PopReg(General(i))];
      }
      SavedNext(live, i);
    }
    if frame > 0 {
      code := code + [PopReg(Sp)];
    }
    code := code + [PopReg(Retpc), PopReg(FP), Return];
  }

  // ------------------------------------------------------- pushes and pops

  lemma {:induction false} RunAppend(m: Machine, a: seq<Insn>, b: seq<Insn>)
    ensures Run(m, a + b) == Run(Run(m, a), b)
  {
    if b == [] {
      assert a + b == a;
    } else {
      RunAppend(m, a, b[..|b| - 1]);
      assert (a + b)[..|a + b| - 1] == a + b[..|b| - 1];
    }
  }

  lemma RunOne(m: Machine, i: Insn)
    ensures Run(m, [i]) == Exec(m, i)
  {
    assert [i][..0] == [];
  }

  /** Where the `k`-th of several words pushed from `sp` goes. */
  function Slot(sp: Addr, k: int): Addr {
    Plus(sp, 0 - 1 - k)
  }

  lemma SlotsApart(sp: Addr, j: int, k: int)
    requires 0 <= j < k < WORD_SPAN
    ensures Slot(sp, j) != Slot(sp, k)
  {
  }

  lemma SlotNext(sp: Addr, n: nat, k: int)
    ensures Slot(Plus(sp, 0 - n), k) == Slot(sp, n + k)
  {
    PlusPlus(sp, 0 - n, 0 - 1 - k);
  }

  ghost predicate AllGeneral(rs: seq<Reg>) {
    forall k :: 0 <= k < |rs| ==> rs[k].General? && rs[k].index < GENERAL
  }

  ghost predicate Distinct(rs: seq<Reg>) {
    forall j, k :: 0 <= j < k < |rs| ==> rs[j] != rs[k]
  }

  /** What `n` pushes of the registers `rs` have done. */
  ghost predicate Filled(m: Machine, t: Machine, rs: seq<Reg>) {
    && t.sp == Plus(m.sp, 0 - |rs|) && t.file == m.file && t.retpc == m.retpc
    && (forall k :: 0 <= k < |rs| ==> t.mem[Slot(m.sp, k)] == m.Get(rs[k]))
    && (forall k :: |rs| <= k < WORD_SPAN ==> t.mem[Slot(m.sp, k)] == m.mem[Slot(m.sp, k)])
  }

  lemma FillNext(m: Machine, s: Machine, rs: seq<Reg>, r: Reg)
    requires Filled(m, s, rs) && |rs| + 1 < WORD_SPAN && r.General?
    ensures Filled(m, Exec(s, PushReg(r)), rs + [r])
  {
    var t, n := Exec(s, PushReg(r)), |rs|;
    PlusPlus(m.sp, 0 - n, 0 - 1);
    assert t.sp == Slot(m.sp, n);
    forall k | 0 <= k < WORD_SPAN && k != n
      ensures t.mem[Slot(m.sp, k)] == s.mem[Slot(m.sp, k)]
    {
      SlotsApart(m.sp, if k < n then k else n, if k < n then n else k);
    }
  }

  /** Pushes fill the next slots and change nothing else. */
  lemma {:induction false} PushesFill(m: Machine, rs: seq<Reg>)
    requires AllGeneral(rs) && |rs| < WORD_SPAN
    ensures Filled(m, Run(m, Pushes(rs)), rs)
  {
    if rs != [] {
      var init, r := rs[..|rs| - 1], rs[|rs| - 1];
      PushesFill(m, init);
      var s := Run(m, Pushes(init));
      RunAppend(m, Pushes(init), [PushReg(r)]);
      RunOne(s, PushReg(r));
      FillNext(m, s, init, r);
      assert init + [r] == rs;
    }
  }

  /** What popping the registers `rs` does, from below `top`. */
  ghost predicate Taken(m: Machine, t: Machine, top: Addr, rs: seq<Reg>) {
    && t.sp == top && t.mem == m.mem && t.retpc == m.retpc
    && (forall k :: 0 <= k < |rs| ==> t.Get(rs[k]) == m.mem[Slot(top, k)])
    && (forall i :: 0 <= i < GENERAL && General(i) !in rs ==> t.file[i] == m.file[i])
  }

  lemma TakeNext(m: Machine, s: Machine, t: Machine, top: Addr, rs: seq<Reg>, r: Reg)
    requires s == Exec(m, PopReg(r)) && Taken(s, t, top, rs) && AllGeneral(rs + [r]) && r !in rs
    requires m.sp == Slot(top, |rs|)
    ensures Taken(m, t, top, rs + [r])
  {
    assert (rs + [r])[|rs|] == r;
    assert s.Get(r) == m.mem[m.sp];
    assert t.Get(r) == s.Get(r);
    forall i | 0 <= i < GENERAL && General(i) !in rs + [r]
      ensures t.file[i] == m.file[i]
    {
      assert General(i) !in rs && General(i) != r;
    }
  }

  lemma SplitLast(rs: seq<Reg>, init: seq<Reg>, r: Reg)
    requires rs != [] && AllGeneral(rs) && Distinct(rs) && init == rs[..|rs| - 1] && r == rs[|rs| - 1]
    ensures AllGeneral(init) && Distinct(init) && r !in init && rs == init + [r]
  {
  }

  lemma StepUp(m: Machine, top: Addr, n: nat, r: Reg)
    requires m.sp == Plus(top, 0 - (n + 1)) && r.General?
    ensures m.sp == Slot(top, n) && Exec(m, PopReg(r)).sp == Plus(top, 0 - n)
  {
    PlusPlus(top, 0 - (n + 1), 1);
  }

  /** Pops take the words back, last one first, and leave the memory alone. */
  lemma {:induction false} PopsTake(m: Machine, top: Addr, rs: seq<Reg>)
    requires AllGeneral(rs) && Distinct(rs) && m.sp == Plus(top, 0 - |rs|)
    ensures Taken(m, Run(m, Pops(rs)), top, rs)
    decreases |rs|
  {
    if rs != [] {
      var init, r := rs[..|rs| - 1], rs[|rs| - 1];
      var s := Exec(m, PopReg(r));
      SplitLast(rs, init, r);
      StepUp(m, top, |init|, r);
      RunAppend(m, [PopReg(r)], Pops(init));
      RunOne(m, PopReg(r));
      PopsTake(s, top, init);
      TakeNext(m, s, Run(s, Pops(init)), top, init, r);
    }
  }

  // ------------------------------------------------------ there and back

  /** The registers that are pushed: exactly the pointers 4 to 6 and the halves of the accumulators 4 to 7
      (registers 16 to 23) that the function uses, each once. */
  lemma {:induction false} SavedExactly(live: seq<bool>, n: nat, r: Reg)
    requires |live| == REGISTERS && n <= REGISTERS
    ensures r in SavedBelow(live, n)
      <==> r.General? && r.index < n && live[r.index] && (4 <= r.index <= 6 || 16 <= r.index <= 23)
    ensures Distinct(SavedBelow(live, n))
  {
    SavedFacts(live, n);
    if n > 0 {
      SavedExactly(live, n - 1, r);
    }
  }

  lemma {:induction false} SavedFacts(live: seq<bool>, n: nat)
    requires |live| == REGISTERS && n <= REGISTERS
    ensures var rs := SavedBelow(live, n);
      && AllGeneral(rs) && Distinct(rs) && |rs| <= n
      && (forall k :: 0 <= k < |rs| ==> rs[k].index < n && rs[k] != FP)
      && (forall i: nat :: i < n && live[i] && CalleeSaved(i) ==> General(i) in rs)
  {
    if n > 0 {
      SavedFacts(live, n - 1);
    }
  }

  /** The words between the old stack pointer and the first pushed register: the frame pointer, the
      return address, the locals with one word to spare, and the stack pointer before the locals. */
  function Below(frame: nat): nat {
    if frame > 0 then frame + 4 else 2
  }

  /** After the entry sequence. */
  ghost predicate Entered(m: Machine, t: Machine, frame: nat) {
    && t.sp == Plus(m.sp, 0 - Below(frame)) && t.retpc == m.retpc
    && t.mem[Slot(m.sp, 0)] == m.Get(FP) && t.mem[Slot(m.sp, 1)] == m.retpc
    && (frame > 0 ==> t.mem[Slot(m.sp, frame + 3)] == Plus(m.sp, 0 - 2))
    && (forall i :: 0 <= i < GENERAL && i != 7 ==> t.file[i] == m.file[i])
    && t.Get(FP) == Plus(m.sp, 0 - if frame > 0 then 2 else 1)
  }

  lemma RunThree(m: Machine, a: Insn, b: Insn, c: Insn)
    ensures Run(m, [a, b, c]) == Exec(Exec(Exec(m, a), b), c)
  {
    RunOne(m, a);
    RunAppend(m, [a], [b]);
    RunOne(Exec(m, a), b);
    RunAppend(m, [a] + [b], [c]);
    RunOne(Exec(Exec(m, a), b), c);
    assert [a, b, c] == [a] + [b] + [c];
  }

  lemma RunFour(m: Machine, a: Insn, b: Insn, c: Insn, d: Insn)
    ensures Run(m, [a, b, c, d]) == Exec(Exec(Exec(Exec(m, a), b), c), d)
  {
    RunThree(m, a, b, c);
    RunAppend(m, [a, b, c], [d]);
    RunOne(Exec(Exec(Exec(m, a), b), c), d);
    assert [a, b, c, d] == [a, b, c] + [d];
  }

  lemma EntersPlain(m: Machine)
    ensures Entered(m, Exec(Exec(Exec(m, PushReg(FP)), FrameFromSp), PushReg(Retpc)), 0)
  {
    PlusPlus(m.sp, 0 - 1, 0 - 1);
    SlotsApart(m.sp, 0, 1);
  }

  lemma EntersFrame(m: Machine, t: Machine, frame: nat)
    requires Entered(m, t, 0) && 0 < frame && frame + 4 < WORD_SPAN
    ensures Entered(m, Exec(Exec(Exec(Exec(t, LowerFrame(frame + 2)), SwapSpFrame), NopInsn), PushReg(FP)), frame)
  {
    PlusPlus(m.sp, 0 - 1, 0 - (frame + 2));
    PlusPlus(m.sp, 0 - (frame + 3), 0 - 1);
    SlotsApart(m.sp, 0, frame + 3);
    SlotsApart(m.sp, 1, frame + 3);
  }

  lemma EntryRuns(m: Machine, frame: nat)
    requires frame + 4 < WORD_SPAN
    ensures Entered(m, Run(m, Entry(frame)), frame)
  {
    var first := [PushReg(FP), FrameFromSp, PushReg(Retpc)];
    RunThree(m, PushReg(FP), FrameFromSp, PushReg(Retpc));
    EntersPlain(m);
    if frame > 0 {
      RunAppend(m, first, [LowerFrame(frame + 2), SwapSpFrame, NopInsn, PushReg(FP)]);
      RunFour(Run(m, first), LowerFrame(frame + 2), SwapSpFrame, NopInsn, PushReg(FP));
      EntersFrame(m, Run(m, first), frame);
    } else {
      assert Entry(frame) == first;
    }
  }

  /** What the exit sequence finds: the stack pointer below the frame and the three saved words. */
  ghost predicate Leaving(t: Machine, sp: Addr, fp: Word, retpc: Word, frame: nat) {
    && t.sp == Plus(sp, 0 - Below(frame))
    && t.mem[Slot(sp, 0)] == fp && t.mem[Slot(sp, 1)] == retpc
    && (frame > 0 ==> t.mem[Slot(sp, frame + 3)] == Plus(sp, 0 - 2))
  }

  lemma LeavesPlain(t: Machine, sp: Addr, fp: Word, retpc: Word)
    requires Leaving(t, sp, fp, retpc, 0)
    ensures var u := Exec(Exec(Exec(t, PopReg(Retpc)), PopReg(FP)), Return);
      && u.sp == sp && u.Get(FP) == fp && u.retpc == retpc
      && forall i :: 0 <= i < GENERAL && i != 7 ==> u.file[i] == t.file[i]
  {
    PlusPlus(sp, 0 - 2, 1);
    PlusPlus(sp, 0 - 1, 1);
  }

  lemma ExitRuns(t: Machine, sp: Addr, fp: Word, retpc: Word, frame: nat)
    requires Leaving(t, sp, fp, retpc, frame) && frame + 4 < WORD_SPAN
    ensures var u := Run(t, Exit(frame));
      && u.sp == sp && u.Get(FP) == fp && u.retpc == retpc
      && forall i :: 0 <= i < GENERAL && i != 7 ==> u.file[i] == t.file[i]
  {
    var last := [PopReg(Retpc), PopReg(FP), Return];
    var s := if frame > 0 then Exec(t, PopReg(Sp)) else t;
    RunThree(s, PopReg(Retpc), PopReg(FP), Return);
    LeavesPlain(s, sp, fp, retpc);
    if frame > 0 {
      RunAppend(t, [PopReg(Sp)], last);
      RunOne(t, PopReg(Sp));
    } else {
      assert Exit(frame) == last;
    }
  }

  function ProloguePart(frame: nat, live: seq<bool>): seq<Insn>
    requires |live| == REGISTERS
  {
    Entry(frame) + Pushes(SavedBelow(live, |live|))
  }

  function EpiloguePart(frame: nat, live: seq<bool>): seq<Insn>
    requires |live| == REGISTERS
  {
    Pops(SavedBelow(live, |live|)) + Exit(frame)
  }

  /** The words the prologue has saved, counted from the stack pointer of the caller. */
  predicate SavedSlot(frame: nat, count: nat, k: nat) {
    k < 2 || (frame > 0 && k == frame + 3) || Below(frame) <= k < Below(frame) + count
  }

  /** A body that puts the stack pointer back and spares the saved words. */
  ghost predicate BodySpares(m: Machine, before: Machine, after: Machine, frame: nat, count: nat) {
    && after.sp == before.sp
    && forall k: nat :: k < WORD_SPAN && SavedSlot(frame, count, k) ==>
         after.mem[Slot(m.sp, k)] == before.mem[Slot(m.sp, k)]
  }

  /** Every saved word is in its slot. */
  ghost predicate AllSaved(m: Machine, t: Machine, frame: nat, rs: seq<Reg>) {
    && t.sp == Plus(m.sp, 0 - (Below(frame) + |rs|))
    && t.mem[Slot(m.sp, 0)] == m.Get(FP) && t.mem[Slot(m.sp, 1)] == m.retpc
    && (frame > 0 ==> t.mem[Slot(m.sp, frame + 3)] == Plus(m.sp, 0 - 2))
    && (forall k :: 0 <= k < |rs| ==> t.mem[Slot(m.sp, Below(frame) + k)] == m.Get(rs[k]))
    && t.Get(FP) == Plus(m.sp, 0 - if frame > 0 then 2 else 1)
  }

  lemma PushesSave(m: Machine, e: Machine, t: Machine, frame: nat, rs: seq<Reg>)
    requires Entered(m, e, frame) && Filled(e, t, rs) && AllGeneral(rs) && FP !in rs
    requires Below(frame) + |rs| < WORD_SPAN
    ensures AllSaved(m, t, frame, rs)
  {
    PlusPlus(m.sp, 0 - Below(frame), 0 - |rs|);
    forall k | 0 <= k < |rs|
      ensures t.mem[Slot(m.sp, Below(frame) + k)] == m.Get(rs[k])
    {
      SlotNext(m.sp, Below(frame), k);
    }
    EarlierSlots(m.sp, e, t, rs, Below(frame));
  }

  lemma PrologueSaves(m: Machine, frame: nat, live: seq<bool>)
    requires |live| == REGISTERS && frame + 4 + REGISTERS < WORD_SPAN
    ensures AllSaved(m, Run(m, ProloguePart(frame, live)), frame, SavedBelow(live, |live|))
    ensures |SavedBelow(live, |live|)| <= REGISTERS
  {
    var rs := SavedBelow(live, |live|);
    var e := Run(m, Entry(frame));
    SavedFacts(live, |live|);
    EntryRuns(m, frame);
    RunAppend(m, Entry(frame), Pushes(rs));
    PushesFill(e, rs);
    PushesSave(m, e, Run(m, ProloguePart(frame, live)), frame, rs);
  }

  /** Pushing further words leaves the earlier slots alone. */
  lemma EarlierSlots(sp: Addr, e: Machine, t: Machine, rs: seq<Reg>, n: nat)
    requires Filled(e, t, rs) && e.sp == Plus(sp, 0 - n) && n + |rs| < WORD_SPAN
    ensures forall k: nat :: k < n ==> t.mem[Slot(sp, k)] == e.mem[Slot(sp, k)]
  {
    forall k: nat | k < n
      ensures t.mem[Slot(sp, k)] == e.mem[Slot(sp, k)]
    {
      SlotAround(sp, n, k);
    }
  }

  /** Counted from further down, an earlier slot comes round again. */
  lemma SlotAround(sp: Addr, n: nat, k: nat)
    requires k < n < WORD_SPAN
    ensures Slot(sp, k) == Slot(Plus(sp, 0 - n), k - n + WORD_SPAN)
  {
  }

  lemma PopsRestore(m: Machine, before: Machine, after: Machine, s: Machine, frame: nat, rs: seq<Reg>)
    requires AllSaved(m, before, frame, rs) && BodySpares(m, before, after, frame, |rs|)
    requires Taken(after, s, Plus(m.sp, 0 - Below(frame)), rs) && frame + 4 + |rs| < WORD_SPAN
    ensures Leaving(s, m.sp, m.Get(FP), m.retpc, frame)
    ensures forall k :: 0 <= k < |rs| ==> s.Get(rs[k]) == m.Get(rs[k])
  {
    assert SavedSlot(frame, |rs|, 0) && SavedSlot(frame, |rs|, 1) && (frame > 0 ==> SavedSlot(frame, |rs|, frame + 3));
    forall k | 0 <= k < |rs|
      ensures s.Get(rs[k]) == m.Get(rs[k])
    {
      SlotNext(m.sp, Below(frame), k);
      assert SavedSlot(frame, |rs|, Below(frame) + k);
    }
  }

  lemma Restores(m: Machine, before: Machine, after: Machine, frame: nat, rs: seq<Reg>)
    requires AllSaved(m, before, frame, rs) && BodySpares(m, before, after, frame, |rs|)
    requires AllGeneral(rs) && Distinct(rs) && FP !in rs && frame + 4 + |rs| < WORD_SPAN
    ensures var u := Run(after, Pops(rs) + Exit(frame));
      && u.sp == m.sp && u.Get(FP) == m.Get(FP) && u.retpc == m.retpc
      && forall k :: 0 <= k < |rs| ==> u.Get(rs[k]) == m.Get(rs[k])
  {
    var top, s := Plus(m.sp, 0 - Below(frame)), Run(after, Pops(rs));
    PlusPlus(m.sp, 0 - Below(frame), 0 - |rs|);
    PopsTake(after, top, rs);
    PopsRestore(m, before, after, s, frame, rs);
    ExitRuns(s, m.sp, m.Get(FP), m.retpc, frame);
    RunAppend(after, Pops(rs), Exit(frame));
    var u := Run(after, Pops(rs) + Exit(frame));
    forall k | 0 <= k < |rs|
      ensures u.Get(rs[k]) == m.Get(rs[k])
    {
      assert rs[k] != FP;
      assert u.file[rs[k].index] == s.file[rs[k].index];
    }
  }

  /** Prologue, any body that restores the stack pointer and spares the saved words, epilogue: the
      stack pointer, the frame pointer, the return address and every callee-saved register the
      function uses are back, for every frame size and every set of registers. */
  lemma EpilogueInverts(m: Machine, after: Machine, frame: nat, live: seq<bool>)
    requires |live| == REGISTERS && frame + 4 + REGISTERS < WORD_SPAN
    requires BodySpares(m, Run(m, ProloguePart(frame, live)), after, frame, |SavedBelow(live, |live|)|)
    ensures var u := Run(after, EpiloguePart(frame, live));
      && u.sp == m.sp && u.Get(FP) == m.Get(FP) && u.retpc == m.retpc
      && forall i: nat :: i < GENERAL && live[i] && (4 <= i <= 6 || 16 <= i <= 23) ==> u.file[i] == m.file[i]
  {
    var rs := SavedBelow(live, |live|);
    SavedFacts(live, |live|);
    PrologueSaves(m, frame, live);
    Restores(m, Run(m, ProloguePart(frame, live)), after, frame, rs);
    var u := Run(after, EpiloguePart(frame, live));
    forall i: nat | i < GENERAL && live[i] && CalleeSaved(i)
      ensures u.file[i] == m.file[i]
    {
      assert General(i) in rs;
      var k :| 0 <= k < |rs| && rs[k] == General(i);
      assert u.Get(rs[k]) == m.Get(rs[k]);
    }
  }

  lemma LocalOffSaved(sp: Addr, frame: nat, count: nat, k: nat, saved: nat)
    requires k < frame && frame + 4 + count < WORD_SPAN && SavedSlot(frame, count, saved)
    ensures Slot(sp, 2 + k) != Slot(sp, saved)
  {
    if saved < 2 + k {
      SlotsApart(sp, saved, 2 + k);
    } else {
      SlotsApart(sp, 2 + k, saved);
    }
  }

  /** The locals, just below the frame pointer, are none of the saved words. */
  lemma LocalsApart(m: Machine, frame: nat, live: seq<bool>, k: nat, saved: nat)
    requires |live| == REGISTERS && frame + 4 + REGISTERS < WORD_SPAN && k < frame
    requires SavedSlot(frame, |SavedBelow(live, |live|)|, saved)
    ensures Slot(Run(m, ProloguePart(frame, live)).Get(FP), k) != Slot(m.sp, saved)
  {
    PrologueSaves(m, frame, live);
    SlotNext(m.sp, 2, k);
    LocalOffSaved(m.sp, frame, |SavedBelow(live, |live|)|, k, saved);
  }
}

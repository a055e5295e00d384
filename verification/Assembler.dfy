/** The assembler of sw/tools/asm/asm.c: two passes over the code and data lists. */
module Assembler {
  import opened Words
  import opened Vliwdec
  import opened Encoding
  import opened Alignment
  import opened AsmPasses
  import opened PassAgreement
  import opened RowEncoder

  /** A memory image that is filled word by word. */
  class Memory {
    const cells: array<bv16>
    var addr: Addr

    predicate Valid()
      reads this
    {
      cells.Length == WORD_SPAN
    }

    function Value(): Mem
      requires Valid()
      reads this, cells
    {
      Mem(cells[..], addr)
    }

    constructor (w: bv16)
      ensures Valid() && fresh(cells) && Value() == Cleared(w)
    {
      cells := new bv16[WORD_SPAN](_ => w);
      addr := 0;
      new;
      assert cells[..] == Cleared(w).cells;
    }

    method Write(w: bv16)
      requires Valid()
      modifies this, cells
      ensures Valid() && Value() == Put(old(Value()), w)
    {
      cells[addr] := w;
      addr := Plus(addr, 1);
    }

    method WriteCode(c: Code) returns (ok: bool)
      requires Valid()
      modifies this, cells
      ensures Valid()
      ensures ok <==> PutCode(old(Value()), c).Good?
      ensures ok ==> Value() == PutCode(old(Value()), c).value
    {
      if c.Short? {
        Write(c.lo);
        return true;
      }
      if addr == WORD_SPAN - 1 {
        return false;
      }
      cells[addr] := c.lo;
      cells[addr + 1] := c.hi;
      addr := Plus(addr, 2);
      return true;
    }

    method WriteMany(w: bv16, n: nat)
      requires Valid()
      modifies this, cells
      ensures Valid() && Value() == PutMany(old(Value()), w, n)
    {
      var i := 0;
      while i < n
        invariant 0 <= i <= n && Valid()
        invariant Value() == PutMany(old(Value()), w, i)
      {
        Write(w);
        i := i + 1;
      }
    }
  }

  // --------------------------------------------------- one instruction

  /** The search of the instruction table `rows`. */
  ghost function Using(rows: seq<Row>): EncodeFn {
    (inst: Instruction, notLast: bool, syms: Symbols) =>
      if TableOk(rows) then Encode(rows, inst, notLast, syms) else Crashed
  }

  /** What the search has found and written after its first `n` rows. */
  ghost predicate Searched(answers: seq<Answer>, n: nat, m: Mem, now: Mem, size: nat, found: bool)
    requires n <= |answers|
  {
    var g := Gather(answers, n);
    && g.Emitted?
    && PutCodes(m, g.codes, |g.codes|) == Good(now)
    && size == Span(g.codes, |g.codes|)
    && (found <==> g.codes != [])
  }

  /** The search cannot end well. */
  ghost predicate Doomed(answers: seq<Answer>, n: nat, m: Mem)
    requires n <= |answers|
  {
    var g := Gather(answers, n);
    g.Crashed? || PutCodes(m, g.codes, |g.codes|) == Fault
  }

  lemma PutOneMore(m: Mem, a: seq<Code>, c: Code)
    ensures PutCodes(m, a + [c], |a| + 1)
      == (if PutCodes(m, a, |a|).Good? then PutCode(PutCodes(m, a, |a|).value, c) else PutCodes(m, a, |a|))
    ensures Span(a + [c], |a| + 1) == Span(a, |a|) + c.Size()
  {
    PutCodesPrefix(m, a + [c], a, |a|);
    SpanPrefix(a + [c], a, |a|);
  }

  lemma {:induction false} StaysDoomed(answers: seq<Answer>, k: nat, n: nat, m: Mem)
    requires k <= n <= |answers| && Doomed(answers, k, m)
    ensures Doomed(answers, n, m)
  {
    if k < n {
      StaysDoomed(answers, k, n - 1, m);
      var g := Gather(answers, n - 1);
      if g.Emitted? && answers[n - 1].Emit? {
        PutOneMore(m, g.codes, answers[n - 1].code);
      }
    }
  }

  /** The search loop: every row that encodes writes its words at once. */
  method SearchTable(rows: seq<Row>, inst: Instruction, notLast: bool, syms: Symbols, imem: Memory,
                     ghost answers: seq<Answer>)
    returns (ok: bool, size: nat, found: bool)
    requires TableOk(rows) && imem.Valid() && answers == Answers(rows, inst, notLast, syms)
    modifies imem, imem.cells
    ensures imem.Valid()
    ensures ok ==> Searched(answers, |rows|, old(imem.Value()), imem.Value(), size, found)
    ensures !ok ==> Doomed(answers, |rows|, old(imem.Value()))
  {
    size, found := 0, false;
    var i := 0;
    while i < |rows|
      invariant 0 <= i <= |rows| && imem.Valid()
      invariant Searched(answers, i, old(imem.Value()), imem.Value(), size, found)
    {
      var a := EncodeRow(rows[i], inst, notLast, syms);
      assert a == answers[i];
      ok, size, found := TakeAnswer(a, imem, old(imem.Value()), answers, i, size, found);
      i := i + 1;
      if !ok {
        StaysDoomed(answers, i, |rows|, old(imem.Value()));
        return;
      }
    }
    ok := true;
  }

  method TakeAnswer(a: Answer, imem: Memory, ghost m: Mem, ghost answers: seq<Answer>, ghost i: nat,
                    size: nat, found: bool)
    returns (ok: bool, size': nat, found': bool)
    requires imem.Valid() && i < |answers| && a == answers[i]
    requires Searched(answers, i, m, imem.Value(), size, found)
    modifies imem, imem.cells
    ensures imem.Valid()
    ensures ok ==> Searched(answers, i + 1, m, imem.Value(), size', found')
    ensures !ok ==> Doomed(answers, i + 1, m)
  {
    match a
    case Skip =>
      return true, size, found;
    case Crash =>
      return false, size, found;
    case Emit(c) =>
      PutOneMore(m, Gather(answers, i).codes, c);
      ok := imem.WriteCode(c);
      return ok, size + c.Size(), true;
  }

  // ------------------------------------------------------------ a bundle

  /** A result and the memory left behind are what the specification says. */
  ghost predicate Agrees(r: Result<nat>, m: Mem, spec: Result<Progress>) {
    && (r.Good? <==> spec.Good?)
    && (r.Bad? <==> spec.Bad?)
    && (spec.Good? ==> spec.value == Progress(m, r.value))
  }

  lemma DoomedFault(rows: seq<Row>, inst: Instruction, notLast: bool, syms: Symbols, p: Progress)
    requires TableOk(rows) && Doomed(Answers(rows, inst, notLast, syms), |rows|, p.mem)
    ensures AsmPasses.AssembleInst(Using(rows), inst, notLast, syms, p) == Fault
  {
    assert Using(rows)(inst, notLast, syms) == Encode(rows, inst, notLast, syms);
  }

  lemma SearchedAssembles(rows: seq<Row>, inst: Instruction, notLast: bool, syms: Symbols, p: Progress,
                          now: Mem, size: nat, found: bool)
    requires TableOk(rows) && Searched(Answers(rows, inst, notLast, syms), |rows|, p.mem, now, size, found)
    ensures AsmPasses.AssembleInst(Using(rows), inst, notLast, syms, p)
      == if !found || p.size + size > 4 then Bad else Good(Progress(now, p.size + size))
  {
    assert Using(rows)(inst, notLast, syms) == Encode(rows, inst, notLast, syms);
  }

  method AssembleInst(rows: seq<Row>, inst: Instruction, notLast: bool, syms: Symbols, total: nat, imem: Memory)
    returns (r: Result<nat>)
    requires TableOk(rows) && imem.Valid()
    modifies imem, imem.cells
    ensures imem.Valid()
    ensures Agrees(r, imem.Value(),
                   AsmPasses.AssembleInst(Using(rows), inst, notLast, syms, Progress(old(imem.Value()), total)))
  {
    ghost var p := Progress(imem.Value(), total);
    var ok, size, found := SearchTable(rows, inst, notLast, syms, imem, Answers(rows, inst, notLast, syms));
    if !ok {
      DoomedFault(rows, inst, notLast, syms, p);
      return Fault;
    }
    SearchedAssembles(rows, inst, notLast, syms, p, imem.Value(), size, found);
    if !found || total + size > 4 {
      return Bad;
    }
    return Good(total + size);
  }

  lemma {:induction false} StaysFailed(
      enc: EncodeFn, insts: seq<Instruction>, k: nat, n: nat, syms: Symbols, m: Mem)
    requires k <= n <= |insts| && !AssembleBundle(enc, insts, k, syms, m).Good?
    ensures AssembleBundle(enc, insts, n, syms, m) == AssembleBundle(enc, insts, k, syms, m)
  {
    if k < n {
      StaysFailed(enc, insts, k, n - 1, syms, m);
    }
  }

  /** The `k`-th instruction of a bundle, after the ones before it. */
  method AssembleNext(rows: seq<Row>, insts: seq<Instruction>, k: nat, syms: Symbols, total: nat, imem: Memory,
                      ghost m: Mem)
    returns (r: Result<nat>)
    requires TableOk(rows) && imem.Valid() && k < |insts|
    requires AssembleBundle(Using(rows), insts, k, syms, m) == Good(Progress(imem.Value(), total))
    modifies imem, imem.cells
    ensures imem.Valid()
    ensures Agrees(r, imem.Value(), AssembleBundle(Using(rows), insts, k + 1, syms, m))
  {
    r := AssembleInst(rows, insts[k], k + 1 < |insts|, syms, total, imem);
  }

  /** try_assemble_inst_bundle. */
  method TryAssembleBundle(rows: seq<Row>, insts: seq<Instruction>, syms: Symbols, imem: Memory)
    returns (r: Result<nat>)
    requires TableOk(rows) && imem.Valid()
    modifies imem, imem.cells
    ensures imem.Valid()
    ensures Agrees(r, imem.Value(), AssembleBundle(Using(rows), insts, |insts|, syms, old(imem.Value())))
  {
    var total, k := 0, 0;
    while k < |insts|
      invariant 0 <= k <= |insts| && imem.Valid()
      invariant AssembleBundle(Using(rows), insts, k, syms, old(imem.Value())) == Good(Progress(imem.Value(), total))
    {
      r := AssembleNext(rows, insts, k, syms, total, imem, old(imem.Value()));
      k := k + 1;
      if !r.Good? {
        StaysFailed(Using(rows), insts, k, |insts|, syms, old(imem.Value()));
        return;
      }
      total := r.value;
    }
    return Good(total);
  }

  // ---------------------------------------------------------- the passes

  lemma {:induction false} StaysFailedFirst(enc: EncodeFn, items: seq<Item>, k: nat, n: nat, s: First)
    requires k <= n <= |items| && !FirstPass(enc, items, k, s).Good?
    ensures FirstPass(enc, items, n, s) == FirstPass(enc, items, k, s)
  {
    if k < n {
      StaysFailedFirst(enc, items, k, n - 1, s);
    }
  }

  lemma {:induction false} StaysFailedSecond(enc: EncodeFn, items: seq<Item>, k: nat, n: nat, table: Table, m: Mem)
    requires k <= n <= |items| && !SecondPass(enc, items, k, table, m).Good?
    ensures SecondPass(enc, items, n, table, m) == SecondPass(enc, items, k, table, m)
  {
    if k < n {
      StaysFailedSecond(enc, items, k, n - 1, table, m);
    }
  }

  lemma {:induction false} StaysFailedFirstData(data: seq<Datum>, k: nat, n: nat, table: Table)
    requires k <= n <= |data| && !FirstData(data, k, table).Good?
    ensures FirstData(data, n, table) == FirstData(data, k, table)
  {
    if k < n {
      StaysFailedFirstData(data, k, n - 1, table);
    }
  }

  lemma {:induction false} StaysFailedSecondData(data: seq<Datum>, k: nat, n: nat, table: Table, m: Mem)
    requires k <= n <= |data| && !SecondData(data, k, table, m).Good?
    ensures SecondData(data, n, table, m) == SecondData(data, k, table, m)
  {
    if k < n {
      StaysFailedSecondData(data, k, n - 1, table, m);
    }
  }

  /** The global state of the assembler. */
  class Asm {
    const rows: seq<Row>
    const imem: Memory
    const dmem: Memory
    var table: Table

    ghost predicate Valid()
      reads this, imem, dmem
    {
      TableOk(rows) && imem.Valid() && dmem.Valid() && imem != dmem && imem.cells != dmem.cells
    }

    constructor (rows: seq<Row>)
      requires TableOk(rows)
      ensures Valid() && fresh(imem) && fresh(imem.cells) && fresh(dmem) && fresh(dmem.cells) && this.rows == rows
      ensures imem.Value() == Cleared(0) && dmem.Value() == Cleared(DMEM_UNINIT) && table == []
    {
      this.rows := rows;
      imem := new Memory(0);
      dmem := new Memory(DMEM_UNINIT);
      table := [];
    }

    /** symtab_add, after the check for a second definition. */
    method DefineSymbol(name: string, addr: Addr) returns (ok: bool)
      modifies this`table
      ensures ok <==> Define(old(table), name, addr).Good?
      ensures ok ==> table == Define(old(table), name, addr).value
    {
      if Lookup(table, name).Some? {
        return false;
      }
      table := [(name, addr)] + table;
      return true;
    }

    /** One item of the first pass. */
    method FirstItem(it: Item) returns (r: Result<()>)
      requires Valid()
      modifies this`table, imem, imem.cells
      ensures Valid()
      ensures var spec := AsmPasses.FirstItem(Using(rows), it, First(old(imem.Value()), old(table)));
        && (r.Good? <==> spec.Good?) && (r.Bad? <==> spec.Bad?)
        && (r.Good? ==> First(imem.Value(), table) == spec.value)
    {
      if it.labelName.Some? {
        var ok := DefineSymbol(it.labelName.value, imem.addr);
        return if ok then Good(()) else Bad;
      }
      if it.align != 0 {
        imem.addr := AlignAddress(imem.addr, it.align);
        return Good(());
      }
      var b := TryAssembleBundle(rows, it.insts, Ignored, imem);
      return if b.Good? then Good(()) else b.PropagateFailure();
    }

    method WriteNops(nops: int)
      requires Valid()
      modifies imem, imem.cells
      ensures Valid() && imem.Value() == PutNops(old(imem.Value()), nops)
    {
      if nops > 0 {
        imem.WriteMany(1, nops - 1);
        imem.Write(0);
      }
    }

    /** One item of the second pass. */
    method SecondItem(it: Item) returns (r: Result<()>)
      requires Valid()
      modifies imem, imem.cells
      ensures Valid()
      ensures var spec := AsmPasses.SecondItem(Using(rows), it, table, old(imem.Value()));
        && (r.Good? <==> spec.Good?) && (r.Bad? <==> spec.Bad?)
        && (r.Good? ==> imem.Value() == spec.value)
    {
      if it.labelName.Some? {
        return Good(());
      }
      if it.align != 0 {
        WriteNops(NopsToAdd(imem.addr, it.align));
        return Good(());
      }
      if it.insts == [] {
        return Fault;
      }
      var b := TryAssembleBundle(rows, it.insts, Known(table), imem);
      return if b.Good? then Good(()) else b.PropagateFailure();
    }

    /** The `k`-th item of the first pass, after the ones before it. */
    method FirstNext(items: seq<Item>, k: nat, ghost s: First) returns (r: Result<()>)
      requires Valid() && k < |items|
      requires FirstPass(Using(rows), items, k, s) == Good(First(imem.Value(), table))
      modifies this`table, imem, imem.cells
      ensures Valid()
      ensures var spec := FirstPass(Using(rows), items, k + 1, s);
        && (r.Good? <==> spec.Good?) && (r.Bad? <==> spec.Bad?)
        && (r.Good? ==> First(imem.Value(), table) == spec.value)
    {
      r := FirstItem(items[k]);
    }

    /** The code half of asm_do_pass_0. */
    method Pass0(items: seq<Item>) returns (r: Result<()>)
      requires Valid()
      modifies this`table, imem, imem.cells
      ensures Valid()
      ensures var spec := FirstPass(Using(rows), items, |items|, First(old(imem.Value()), old(table)));
        && (r.Good? <==> spec.Good?) && (r.Bad? <==> spec.Bad?)
        && (r.Good? ==> First(imem.Value(), table) == spec.value)
    {
      ghost var s := First(imem.Value(), table);
      var k := 0;
      while k < |items|
        invariant 0 <= k <= |items| && Valid()
        invariant FirstPass(Using(rows), items, k, s) == Good(First(imem.Value(), table))
      {
        r := FirstNext(items, k, s);
        k := k + 1;
        if !r.Good? {
          StaysFailedFirst(Using(rows), items, k, |items|, s);
          return;
        }
      }
      return Good(());
    }

    /** The code half of asm_do_pass_1. */
    method Pass1(items: seq<Item>) returns (r: Result<()>)
      requires Valid()
      modifies imem, imem.cells
      ensures Valid()
      ensures var spec := SecondPass(Using(rows), items, |items|, table, old(imem.Value()));
        && (r.Good? <==> spec.Good?) && (r.Bad? <==> spec.Bad?)
        && (r.Good? ==> imem.Value() == spec.value)
    {
      ghost var m := imem.Value();
      var k := 0;
      while k < |items|
        invariant 0 <= k <= |items| && Valid()
        invariant SecondPass(Using(rows), items, k, table, m) == Good(imem.Value())
      {
        r := SecondItem(items[k]);
        k := k + 1;
        if !r.Good? {
          StaysFailedSecond(Using(rows), items, k, |items|, table, m);
          return;
        }
      }
      return Good(());
    }

    /** The data half of asm_do_pass_0: only addresses and symbols. */
    method DataPass0(data: seq<Datum>) returns (ok: bool)
      requires Valid() && dmem.addr == 0
      modifies this`table, dmem
      ensures Valid() && dmem.Value().cells == old(dmem.Value().cells)
      ensures ok <==> FirstData(data, |data|, old(table)).Good?
      ensures ok ==> (dmem.addr, table) == FirstData(data, |data|, old(table)).value
      ensures !ok ==> FirstData(data, |data|, old(table)).Bad?
    {
      var k := 0;
      while k < |data|
        invariant 0 <= k <= |data| && Valid() && dmem.Value().cells == old(dmem.Value().cells)
        invariant FirstData(data, k, old(table)) == Good((dmem.addr, table))
      {
        var d := data[k];
        ok := true;
        if d.labelName.Some? {
          ok := DefineSymbol(d.labelName.value, dmem.addr);
        } else {
          dmem.addr := Plus(dmem.addr, if d.skip != 0 then d.skip else 1);
        }
        k := k + 1;
        if !ok {
          StaysFailedFirstData(data, k, |data|, old(table));
          return;
        }
      }
      return true;
    }

    /** The data half of asm_do_pass_1. */
    method DataPass1(data: seq<Datum>) returns (ok: bool)
      requires Valid()
      modifies dmem, dmem.cells
      ensures Valid()
      ensures ok <==> SecondData(data, |data|, table, old(dmem.Value())).Good?
      ensures ok ==> dmem.Value() == SecondData(data, |data|, table, old(dmem.Value())).value
      ensures !ok ==> SecondData(data, |data|, table, old(dmem.Value())).Bad?
    {
      var k := 0;
      while k < |data|
        invariant 0 <= k <= |data| && Valid()
        invariant SecondData(data, k, table, old(dmem.Value())) == Good(dmem.Value())
      {
        ok := WriteDatum(data[k]);
        k := k + 1;
        if !ok {
          StaysFailedSecondData(data, k, |data|, table, old(dmem.Value()));
          return;
        }
      }
      return true;
    }

    method WriteDatum(d: Datum) returns (ok: bool)
      requires Valid()
      modifies dmem, dmem.cells
      ensures Valid()
      ensures ok <==> SecondDatum(d, table, old(dmem.Value())).Good?
      ensures ok ==> dmem.Value() == SecondDatum(d, table, old(dmem.Value())).value
      ensures !ok ==> SecondDatum(d, table, old(dmem.Value())).Bad?
    {
      if d.labelName.Some? {
        return true;
      }
      if d.skip != 0 {
        if d.skip > 0 {
          dmem.WriteMany(DMEM_UNINIT, d.skip);
        }
        return true;
      }
      if d.symref.Some? {
        var a := Lookup(table, d.symref.value);
        if a.None? {
          return false;
        }
        dmem.Write(a.value as bv16);
        return true;
      }
      dmem.Write((d.value % WORD_SPAN) as bv16);
      return true;
    }

    /** asm_gen_opcodes, on a freshly initialised assembler. */
    method GenOpcodes(items: seq<Item>, data: seq<Datum>) returns (r: Result<()>)
      requires Valid() && table == []
      requires imem.Value() == Cleared(0) && dmem.Value() == Cleared(DMEM_UNINIT)
      modifies this`table, imem, imem.cells, dmem, dmem.cells
      ensures Valid()
      ensures var spec := AsmPasses.GenOpcodes(Using(rows), items, data);
        && (r.Good? <==> spec.Good?) && (r.Bad? <==> spec.Bad?)
        && (r.Good? ==> Output(imem.Value(), dmem.Value(), table) == spec.value)
    {
      var ok := DataPass0(data);
      if !ok {
        return Bad;
      }
      r := Pass0(items);
      if !r.Good? {
        return;
      }
      imem.addr := 0;
      dmem.addr := 0;
      ok := DataPass1(data);
      if !ok {
        return Bad;
      }
      r := Pass1(items);
    }
  }
}

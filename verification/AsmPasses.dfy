/** What the two passes of sw/tools/asm/asm.c do to the memories and the symbol table. */
module AsmPasses {
  import opened Words
  import opened Vliwdec
  import opened Encoding
  import opened Alignment

  /** One entry of the code list: a label, an alignment, or else a bundle. */
  datatype Item = Item(labelName: Option<string>, align: Int32, insts: seq<Instruction>)

  /** One entry of the data list: a label, a gap, a symbol's address, or else a value. */
  datatype Datum = Datum(labelName: Option<string>, symref: Option<string>, value: int, skip: Int32)

  /** Fault is a null dereference or a store beyond the end of a memory. */
  datatype Result<+T> = Good(value: T) | Bad | Fault {
    predicate IsFailure() {
      !Good?
    }

    function PropagateFailure<U>(): Result<U>
      requires IsFailure()
    {
      if Bad? then Bad else Fault
    }

    function Extract(): T
      requires !IsFailure()
    {
      value
    }
  }

  type Cells = c: seq<bv16> | |c| == WORD_SPAN witness seq(WORD_SPAN, _ => 0)

  /** A memory and the 16-bit address of the next word. */
  datatype Mem = Mem(cells: Cells, addr: Addr)

  function Put(m: Mem, w: bv16): Mem {
    Mem(m.cells[m.addr := w], Plus(m.addr, 1))
  }

  /** The second word goes to the next cell of the array, which the last address does not have. */
  function PutCode(m: Mem, c: Code): Result<Mem> {
    if c.Short? then Good(Put(m, c.lo))
    else if m.addr == WORD_SPAN - 1 then Fault
    else Good(Mem(m.cells[m.addr := c.lo][m.addr + 1 := c.hi], Plus(m.addr, 2)))
  }

  // ---------------------------------------------------------- a bundle

  /** The search of the instruction table, which the passes call for every instruction. */
  type EncodeFn = (Instruction, bool, Symbols) -> Emission

  datatype Progress = Progress(mem: Mem, size: nat)

  function PutCodes(m: Mem, codes: seq<Code>, n: nat): Result<Mem>
    requires n <= |codes|
  {
    if n == 0 then Good(m)
    else
      var t :- PutCodes(m, codes, n - 1);
      PutCode(t, codes[n - 1])
  }

  function AssembleInst(enc: EncodeFn, inst: Instruction, notLast: bool, syms: Symbols, p: Progress): Result<Progress>
  {
    match enc(inst, notLast, syms)
    case Crashed => Fault
    case Emitted(codes) =>
      var m :- PutCodes(p.mem, codes, |codes|);
      if codes == [] || p.size + Span(codes, |codes|) > 4 then Bad
      else Good(Progress(m, p.size + Span(codes, |codes|)))
  }

  /** try_assemble_inst_bundle, up to its `n`-th instruction. */
  function AssembleBundle(enc: EncodeFn, insts: seq<Instruction>, n: nat, syms: Symbols, m: Mem): Result<Progress>
    requires n <= |insts|
  {
    if n == 0 then Good(Progress(m, 0))
    else
      var p :- AssembleBundle(enc, insts, n - 1, syms, m);
      AssembleInst(enc, insts[n - 1], n < |insts|, syms, p)
  }

  // ------------------------------------------------------- the first pass

  datatype First = First(mem: Mem, table: Table)

  function Define(table: Table, name: string, addr: Addr): Result<Table> {
    if Lookup(table, name).Some? then Bad else Good([(name, addr)] + table)
  }

  function FirstDatum(d: Datum, addr: Addr, table: Table): Result<(Addr, Table)> {
    if d.labelName.Some? then
      var t :- Define(table, d.labelName.value, addr);
      Good((addr, t))
    else if d.skip != 0 then Good((Plus(addr, d.skip), table))
    else Good((Plus(addr, 1), table))
  }

  function FirstData(data: seq<Datum>, n: nat, table: Table): Result<(Addr, Table)>
    requires n <= |data|
  {
    if n == 0 then Good((0, table))
    else
      var s :- FirstData(data, n - 1, table);
      FirstDatum(data[n - 1], s.0, s.1)
  }

  function FirstItem(enc: EncodeFn, it: Item, s: First): Result<First>
  {
    if it.labelName.Some? then
      var t :- Define(s.table, it.labelName.value, s.mem.addr);
      Good(First(s.mem, t))
    else if it.align != 0 then
      Good(First(s.mem.(addr := AlignAddress(s.mem.addr, it.align)), s.table))
    else
      var p :- AssembleBundle(enc, it.insts, |it.insts|, Ignored, s.mem);
      Good(First(p.mem, s.table))
  }

  function FirstPass(enc: EncodeFn, items: seq<Item>, n: nat, s: First): Result<First>
    requires n <= |items|
  {
    if n == 0 then Good(s)
    else
      var t :- FirstPass(enc, items, n - 1, s);
      FirstItem(enc, items[n - 1], t)
  }

  // ------------------------------------------------------ the second pass

  const DMEM_UNINIT: bv16 := 0xDEAD

  function PutMany(m: Mem, w: bv16, n: nat): Mem {
    if n == 0 then m else Put(PutMany(m, w, n - 1), w)
  }

  /** Nops: all but the last in parallel with the next one. */
  function PutNops(m: Mem, nops: int): Mem {
    if nops > 0 then Put(PutMany(m, 1, nops - 1), 0) else m
  }

  function SecondDatum(d: Datum, table: Table, m: Mem): Result<Mem> {
    if d.labelName.Some? then Good(m)
    else if d.skip != 0 then Good(if d.skip > 0 then PutMany(m, DMEM_UNINIT, d.skip) else m)
    else if d.symref.Some? then
      match Lookup(table, d.symref.value)
      case Some(a) => Good(Put(m, a as bv16))
      case None => Bad
    else Good(Put(m, (d.value % WORD_SPAN) as bv16))
  }

  function SecondData(data: seq<Datum>, n: nat, table: Table, m: Mem): Result<Mem>
    requires n <= |data|
  {
    if n == 0 then Good(m)
    else
      var t :- SecondData(data, n - 1, table, m);
      SecondDatum(data[n - 1], table, t)
  }

  /** An empty bundle, which only `.align 0` makes, is dereferenced for its line number. */
  function SecondItem(enc: EncodeFn, it: Item, table: Table, m: Mem): Result<Mem>
  {
    if it.labelName.Some? then Good(m)
    else if it.align != 0 then Good(PutNops(m, NopsToAdd(m.addr, it.align)))
    else if it.insts == [] then Fault
    else
      var p :- AssembleBundle(enc, it.insts, |it.insts|, Known(table), m);
      Good(p.mem)
  }

  function SecondPass(enc: EncodeFn, items: seq<Item>, n: nat, table: Table, m: Mem): Result<Mem>
    requires n <= |items|
  {
    if n == 0 then Good(m)
    else
      var t :- SecondPass(enc, items, n - 1, table, m);
      SecondItem(enc, items[n - 1], table, t)
  }

  // ------------------------------------------------- both passes together

  datatype Output = Output(imem: Mem, dmem: Mem, table: Table)

  function Cleared(w: bv16): Mem {
    Mem(seq(WORD_SPAN, _ => w), 0)
  }

  /** What the first pass leaves behind: the words it wrote, and all the symbols. */
  function Symtab(enc: EncodeFn, items: seq<Item>, data: seq<Datum>): Result<First>
  {
    var s :- FirstData(data, |data|, []);
    FirstPass(enc, items, |items|, First(Cleared(0), s.1))
  }

  /** asm_gen_opcodes. */
  function GenOpcodes(enc: EncodeFn, items: seq<Item>, data: seq<Datum>): Result<Output>
  {
    var s :- Symtab(enc, items, data);
    var d :- SecondData(data, |data|, s.table, Cleared(DMEM_UNINIT));
    var m :- SecondPass(enc, items, |items|, s.table, s.mem.(addr := 0));
    Good(Output(m, d, s.table))
  }
}

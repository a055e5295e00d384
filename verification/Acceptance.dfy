/** Which programs the assembler accepts: exactly those whose labels are distinct, whose bundles fit and
    whose symbols are defined. */
module Acceptance {
  import opened Words
  import opened Vliwdec
  import opened Encoding
  import opened Alignment
  import opened InsnTable
  import opened UniqueEncoding
  import opened AsmPasses
  import opened PassAgreement
  import opened PassFaults
  import Assembler
  import opened Toolchain
  import opened LinkedPrograms

  // ------------------------------------------------------------- bundles

  /** The search finds one encoding. */
  ghost predicate Encodes(enc: EncodeFn, inst: Instruction, notLast: bool, syms: Symbols) {
    enc(inst, notLast, syms).Emitted? && |enc(inst, notLast, syms).codes| == 1
  }

  /** A 32-bit instruction cannot lie across the end of the memory. */
  predicate HasRoom(c: Code, addr: Addr) {
    c.Long? ==> addr != WORD_SPAN - 1
  }

  /** The words of the first `n` instructions of a bundle. */
  function SizeOf(enc: EncodeFn, insts: seq<Instruction>, n: nat, syms: Symbols): nat
    requires n <= |insts|
  {
    Span(CodesOf(enc, insts, n, syms), |CodesOf(enc, insts, n, syms)|)
  }

  /** Instruction `j` of a bundle at `addr` is encoded, has room, and keeps the bundle within four words. */
  ghost predicate Fine(enc: EncodeFn, insts: seq<Instruction>, j: nat, syms: Symbols, addr: Addr)
    requires j < |insts|
  {
    && Encodes(enc, insts[j], j + 1 < |insts|, syms)
    && var c, before := enc(insts[j], j + 1 < |insts|, syms).codes[0], SizeOf(enc, insts, j, syms);
       HasRoom(c, Plus(addr, before)) && before + c.Size() <= 4
  }

  ghost predicate FineBundle(enc: EncodeFn, insts: seq<Instruction>, n: nat, syms: Symbols, addr: Addr)
    requires n <= |insts|
  {
    forall j: nat :: j < n ==> Fine(enc, insts, j, syms, addr)
  }

  lemma PutCodeRoom(m: Mem, c: Code)
    ensures PutCode(m, c).Good? <==> HasRoom(c, m.addr)
    ensures PutCode(m, c).Good? ==> PutCode(m, c).value.addr == Plus(m.addr, c.Size())
  {
  }

  /** One more instruction, as the code goes about it. */
  lemma InstGoodIff(enc: EncodeFn, inst: Instruction, notLast: bool, syms: Symbols, p: Progress)
    requires Sound(enc)
    ensures AssembleInst(enc, inst, notLast, syms, p).Good?
      <==> && Encodes(enc, inst, notLast, syms)
           && var c := enc(inst, notLast, syms).codes[0]; HasRoom(c, p.mem.addr) && p.size + c.Size() <= 4
    ensures AssembleInst(enc, inst, notLast, syms, p).Good? ==>
      var q, c := AssembleInst(enc, inst, notLast, syms, p).value, enc(inst, notLast, syms).codes[0];
      q.size == p.size + c.Size() && q.mem.addr == Plus(p.mem.addr, c.Size())
  {
    assert OneEncoding(enc, inst, notLast, syms);
    if enc(inst, notLast, syms).Emitted? && enc(inst, notLast, syms).codes != [] {
      var codes := enc(inst, notLast, syms).codes;
      PutCodeRoom(p.mem, codes[0]);
      assert PutCodes(p.mem, codes, 0) == Good(p.mem);
      assert PutCodes(p.mem, codes, 1) == PutCode(p.mem, codes[0]);
      assert Span(codes, 0) == 0;
    }
  }

  lemma SizeNext(enc: EncodeFn, insts: seq<Instruction>, n: nat, syms: Symbols)
    requires n < |insts| && Encodes(enc, insts[n], n + 1 < |insts|, syms)
    ensures SizeOf(enc, insts, n + 1, syms)
      == SizeOf(enc, insts, n, syms) + enc(insts[n], n + 1 < |insts|, syms).codes[0].Size()
  {
    var codes, more := CodesOf(enc, insts, n, syms), CodesOf(enc, insts, n + 1, syms);
    assert more == codes + [enc(insts[n], n + 1 < |insts|, syms).codes[0]];
    SpanPrefix(more, codes, |codes|);
  }

  /** What bundling has done so far, in words. */
  ghost predicate Stands(m: Mem, size: nat, p: Progress) {
    p.size == size && p.mem.addr == Plus(m.addr, size)
  }

  lemma BundleStep(enc: EncodeFn, insts: seq<Instruction>, n: nat, syms: Symbols, m: Mem, p: Progress)
    requires Sound(enc) && n < |insts| && Stands(m, SizeOf(enc, insts, n, syms), p)
    ensures var next := AssembleInst(enc, insts[n], n + 1 < |insts|, syms, p);
      && (next.Good? <==> Fine(enc, insts, n, syms, m.addr))
      && (next.Good? ==> Stands(m, SizeOf(enc, insts, n + 1, syms), next.value))
  {
    InstGoodIff(enc, insts[n], n + 1 < |insts|, syms, p);
    if Encodes(enc, insts[n], n + 1 < |insts|, syms) {
      SizeNext(enc, insts, n, syms);
      PlusPlus(m.addr, p.size, enc(insts[n], n + 1 < |insts|, syms).codes[0].Size());
    }
  }

  lemma BundleUnfolds(enc: EncodeFn, insts: seq<Instruction>, n: nat, syms: Symbols, m: Mem)
    requires n < |insts|
    ensures var a, b := AssembleBundle(enc, insts, n, syms, m), AssembleBundle(enc, insts, n + 1, syms, m);
      (a.Good? ==> b == AssembleInst(enc, insts[n], n + 1 < |insts|, syms, a.value)) && (!a.Good? ==> !b.Good?)
  {
  }

  lemma FineNext(enc: EncodeFn, insts: seq<Instruction>, n: nat, syms: Symbols, addr: Addr)
    requires n < |insts|
    ensures FineBundle(enc, insts, n + 1, syms, addr)
      <==> FineBundle(enc, insts, n, syms, addr) && Fine(enc, insts, n, syms, addr)
  {
  }

  /** A bundle assembles if and only if each of its instructions has an encoding, they take four words at
      most, and the memory has room. */
  lemma {:induction false} BundleGoodIff(enc: EncodeFn, insts: seq<Instruction>, n: nat, syms: Symbols, m: Mem)
    requires Sound(enc) && n <= |insts|
    ensures AssembleBundle(enc, insts, n, syms, m).Good? <==> FineBundle(enc, insts, n, syms, m.addr)
    ensures AssembleBundle(enc, insts, n, syms, m).Good? ==>
      Stands(m, SizeOf(enc, insts, n, syms), AssembleBundle(enc, insts, n, syms, m).value)
  {
    if n == 0 {
      NothingStands(enc, insts, syms, m);
    } else {
      BundleGoodIff(enc, insts, n - 1, syms, m);
      BundleUnfolds(enc, insts, n - 1, syms, m);
      FineNext(enc, insts, n - 1, syms, m.addr);
      if AssembleBundle(enc, insts, n - 1, syms, m).Good? {
        BundleStep(enc, insts, n - 1, syms, m, AssembleBundle(enc, insts, n - 1, syms, m).value);
      }
    }
  }

  lemma NothingStands(enc: EncodeFn, insts: seq<Instruction>, syms: Symbols, m: Mem)
    ensures AssembleBundle(enc, insts, 0, syms, m) == Good(Progress(m, 0)) && FineBundle(enc, insts, 0, syms, m.addr)
    ensures Stands(m, SizeOf(enc, insts, 0, syms), Progress(m, 0))
  {
  }

  // ------------------------------------------------------------ first pass

  /** A label of the first `n` entries of the data list. */
  ghost predicate DataLabel(data: seq<Datum>, n: nat, name: string) {
    exists k: nat :: k < n && k < |data| && data[k].labelName == Some(name)
  }

  ghost predicate ItemLabel(items: seq<Item>, n: nat, name: string) {
    exists k: nat :: k < n && k < |items| && items[k].labelName == Some(name)
  }

  /** The label, if it is one, is none of those before it. */
  ghost predicate FreshDatum(data: seq<Datum>, k: nat)
    requires k < |data|
  {
    data[k].labelName.Some? ==> !DataLabel(data, k, data[k].labelName.value)
  }

  lemma DataLabelNext(data: seq<Datum>, n: nat, name: string)
    requires n < |data|
    ensures DataLabel(data, n + 1, name) <==> DataLabel(data, n, name) || data[n].labelName == Some(name)
  {
  }

  lemma DefineIff(table: Table, name: string, addr: Addr, other: string)
    ensures Define(table, name, addr).Good? <==> Lookup(table, name).None?
    ensures Define(table, name, addr).Good? ==>
      (Lookup(Define(table, name, addr).value, other).Some? <==> Lookup(table, other).Some? || name == other)
  {
  }

  /** The table has the labels of the first `n` entries of the data list. */
  ghost predicate KnowsData(data: seq<Datum>, n: nat, table: Table) {
    forall name :: Lookup(table, name).Some? <==> DataLabel(data, n, name)
  }

  lemma DatumKnown(data: seq<Datum>, n: nat, addr: Addr, table: Table)
    requires n < |data| && KnowsData(data, n, table)
    ensures FirstDatum(data[n], addr, table).Good? <==> FreshDatum(data, n)
    ensures FirstDatum(data[n], addr, table).Good? ==>
      KnowsData(data, n + 1, FirstDatum(data[n], addr, table).value.1)
  {
    forall name
      ensures DataLabel(data, n + 1, name) <==> DataLabel(data, n, name) || data[n].labelName == Some(name)
      ensures data[n].labelName.Some? && FirstDatum(data[n], addr, table).Good? ==>
        (Lookup(FirstDatum(data[n], addr, table).value.1, name).Some?
         <==> Lookup(table, name).Some? || data[n].labelName == Some(name))
    {
      DataLabelNext(data, n, name);
      if data[n].labelName.Some? {
        DefineIff(table, data[n].labelName.value, addr, name);
      }
    }
  }

  /** The first pass over the data stops at the first label it knows already, and nowhere else. */
  lemma {:induction false} FirstDataIff(data: seq<Datum>, n: nat)
    requires n <= |data|
    ensures FirstData(data, n, []).Good? <==> forall k: nat :: k < n ==> FreshDatum(data, k)
    ensures FirstData(data, n, []).Good? ==> KnowsData(data, n, FirstData(data, n, []).value.1)
  {
    if n > 0 {
      FirstDataIff(data, n - 1);
      if FirstData(data, n - 1, []).Good? {
        var s := FirstData(data, n - 1, []).value;
        DatumKnown(data, n - 1, s.0, s.1);
      }
    }
  }

  ghost predicate FreshItem(items: seq<Item>, k: nat, data: seq<Datum>)
    requires k < |items|
  {
    items[k].labelName.Some? ==>
      && !DataLabel(data, |data|, items[k].labelName.value)
      && !ItemLabel(items, k, items[k].labelName.value)
  }

  /** No two labels of the program are the same. */
  ghost predicate LabelsDistinct(items: seq<Item>, data: seq<Datum>) {
    && (forall k: nat :: k < |data| ==> FreshDatum(data, k))
    && (forall k: nat :: k < |items| ==> FreshItem(items, k, data))
  }

  predicate IsBundle(it: Item) {
    it.labelName.None? && it.align == 0
  }

  ghost predicate FineItem(enc: EncodeFn, it: Item, syms: Symbols, addr: Addr) {
    IsBundle(it) ==> FineBundle(enc, it.insts, |it.insts|, syms, addr)
  }

  /** The table has all labels of the data list and those of the first `n` items. */
  ghost predicate Knows(items: seq<Item>, n: nat, data: seq<Datum>, table: Table) {
    forall name :: Lookup(table, name).Some? <==> DataLabel(data, |data|, name) || ItemLabel(items, n, name)
  }

  lemma ItemLabelNext(items: seq<Item>, n: nat, name: string)
    requires n < |items|
    ensures ItemLabel(items, n + 1, name) <==> ItemLabel(items, n, name) || items[n].labelName == Some(name)
  {
  }

  lemma LabelKnown(items: seq<Item>, n: nat, data: seq<Datum>, addr: Addr, table: Table)
    requires n < |items| && Knows(items, n, data, table) && items[n].labelName.Some?
    ensures Define(table, items[n].labelName.value, addr).Good? <==> FreshItem(items, n, data)
    ensures Define(table, items[n].labelName.value, addr).Good? ==>
      Knows(items, n + 1, data, Define(table, items[n].labelName.value, addr).value)
  {
    forall name
      ensures ItemLabel(items, n + 1, name) <==> ItemLabel(items, n, name) || items[n].labelName == Some(name)
      ensures Define(table, items[n].labelName.value, addr).Good? ==>
        (Lookup(Define(table, items[n].labelName.value, addr).value, name).Some?
         <==> Lookup(table, name).Some? || items[n].labelName.value == name)
    {
      ItemLabelNext(items, n, name);
      DefineIff(table, items[n].labelName.value, addr, name);
    }
  }

  lemma NoLabelKnown(items: seq<Item>, n: nat, data: seq<Datum>, table: Table)
    requires n < |items| && Knows(items, n, data, table) && items[n].labelName.None?
    ensures Knows(items, n + 1, data, table)
  {
    forall name
      ensures ItemLabel(items, n + 1, name) <==> ItemLabel(items, n, name)
    {
      ItemLabelNext(items, n, name);
    }
  }

  lemma ItemKnown(enc: EncodeFn, items: seq<Item>, n: nat, data: seq<Datum>, s: First)
    requires Sound(enc) && n < |items| && Knows(items, n, data, s.table)
    ensures FirstItem(enc, items[n], s).Good?
      <==> FreshItem(items, n, data) && FineItem(enc, items[n], Ignored, s.mem.addr)
    ensures FirstItem(enc, items[n], s).Good? ==> Knows(items, n + 1, data, FirstItem(enc, items[n], s).value.table)
  {
    if items[n].labelName.Some? {
      LabelKnown(items, n, data, s.mem.addr, s.table);
    } else {
      NoLabelKnown(items, n, data, s.table);
      if items[n].align == 0 {
        BundleGoodIff(enc, items[n].insts, |items[n].insts|, Ignored, s.mem);
      }
    }
  }

  /** What the first pass asks of item `k`. */
  ghost predicate Welcome(enc: EncodeFn, items: seq<Item>, k: nat, data: seq<Datum>, s: First)
    requires k < |items|
  {
    FreshItem(items, k, data) && FineItem(enc, items[k], Ignored, FirstAddressOf(enc, items, k, s))
  }

  /** The first pass over the code stops at a label it knows already or at a bundle that does not assemble,
      and nowhere else. */
  lemma {:induction false} FirstPassIff(enc: EncodeFn, items: seq<Item>, n: nat, data: seq<Datum>, s: First)
    requires Sound(enc) && n <= |items| && Knows(items, 0, data, s.table)
    ensures FirstPass(enc, items, n, s).Good? <==> forall k: nat :: k < n ==> Welcome(enc, items, k, data, s)
    ensures FirstPass(enc, items, n, s).Good? ==> Knows(items, n, data, FirstPass(enc, items, n, s).value.table)
  {
    if n > 0 {
      FirstPassIff(enc, items, n - 1, data, s);
      if FirstPass(enc, items, n - 1, s).Good? {
        ItemKnown(enc, items, n - 1, data, FirstPass(enc, items, n - 1, s).value);
        assert Welcome(enc, items, n - 1, data, s) <==> FirstPass(enc, items, n, s).Good?;
      }
    }
  }

  /** The state the first pass over the code starts from. */
  function CodeStart(data: seq<Datum>): First
    requires FirstData(data, |data|, []).Good?
  {
    First(Cleared(0), FirstData(data, |data|, []).value.1)
  }

  lemma KnowsNoItems(items: seq<Item>, data: seq<Datum>, table: Table)
    requires KnowsData(data, |data|, table)
    ensures Knows(items, 0, data, table)
  {
    forall name
      ensures !ItemLabel(items, 0, name)
    {
    }
  }

  /** The first pass goes through if and only if the labels of the program are distinct and every bundle, at
      the address where the pass comes to it, has its instructions encoded, four words at most, and room. */
  lemma SymtabIff(enc: EncodeFn, items: seq<Item>, data: seq<Datum>)
    requires Sound(enc)
    ensures Symtab(enc, items, data).Good? <==>
      && LabelsDistinct(items, data) && FirstData(data, |data|, []).Good?
      && forall k: nat :: k < |items| ==>
           FineItem(enc, items[k], Ignored, FirstAddressOf(enc, items, k, CodeStart(data)))
    ensures LabelsDistinct(items, data) ==> FirstData(data, |data|, []).Good?
    ensures Symtab(enc, items, data).Good? ==> Knows(items, |items|, data, Symtab(enc, items, data).value.table)
  {
    FirstDataIff(data, |data|);
    if FirstData(data, |data|, []).Good? {
      KnowsNoItems(items, data, FirstData(data, |data|, []).value.1);
      FirstPassIff(enc, items, |items|, data, CodeStart(data));
      WelcomeAll(enc, items, data, CodeStart(data));
    }
  }

  lemma WelcomeAll(enc: EncodeFn, items: seq<Item>, data: seq<Datum>, s: First)
    ensures (forall k: nat :: k < |items| ==> Welcome(enc, items, k, data, s)) <==>
      && (forall k: nat :: k < |items| ==> FreshItem(items, k, data))
      && (forall k: nat :: k < |items| ==> FineItem(enc, items[k], Ignored, FirstAddressOf(enc, items, k, s)))
  {
    forall k: nat | k < |items|
      ensures Welcome(enc, items, k, data, s)
        <==> FreshItem(items, k, data) && FineItem(enc, items[k], Ignored, FirstAddressOf(enc, items, k, s))
    {
    }
  }

  // ----------------------------------------------------------- second pass

  /** The symbols an instruction names are in the table. */
  predicate SymbolsKnown(inst: Instruction, table: Table) {
    forall k :: 0 <= k < |inst.ops| && inst.ops[k].kind == SymbolRef ==> Lookup(table, inst.ops[k].name).Some?
  }

  /** With the symbols in the table an instruction that had an encoding still has one, and only then. */
  ghost predicate NeedsSymbols(enc: EncodeFn) {
    forall inst, notLast, table :: Encodes(enc, inst, notLast, Ignored) ==>
      (Encodes(enc, inst, notLast, Known(table)) <==> SymbolsKnown(inst, table))
  }

  /** The symbol fields of a row are those for symbols. */
  ghost predicate SymbolsEncoded(r: Row) {
    forall k: nat :: k < |r.defs| ==> (r.defs[k].encoder.EncSymref? <==> r.defs[k].kind == SymbolRef)
  }

  lemma LogicSymbols(i: nat)
    requires 0 <= i < 8
    ensures SymbolsEncoded(LogicRow(i))
  {
  }

  lemma HalfLogicSymbols(i: nat)
    requires 8 <= i < 15
    ensures SymbolsEncoded(HalfLogicRow(i))
  {
  }

  lemma ArithmeticSymbols(i: nat)
    requires 15 <= i < 21
    ensures SymbolsEncoded(ArithmeticRow(i))
  {
  }

  lemma CompareSymbols(i: nat)
    requires 21 <= i < 31
    ensures SymbolsEncoded(CompareRow(i))
  {
  }

  lemma MemorySymbols(i: nat)
    requires 31 <= i < 39
    ensures SymbolsEncoded(MemoryRow(i))
  {
  }

  lemma ImmediateSymbols(i: nat)
    requires 39 <= i < 47
    ensures SymbolsEncoded(ImmediateRow(i))
  {
    if i < 43 {
      LoadImmediateSymbols(i);
    } else {
      LoadOffsetSymbols(i);
    }
  }

  lemma LoadImmediateSymbols(i: nat)
    requires 39 <= i < 43
    ensures SymbolsEncoded(ImmediateRow(i))
  {
  }

  lemma LoadOffsetSymbols(i: nat)
    requires 43 <= i < 47
    ensures SymbolsEncoded(ImmediateRow(i))
  {
  }

  lemma OffsetSymbols(i: nat)
    requires 47 <= i < 52
    ensures SymbolsEncoded(OffsetRow(i))
  {
  }

  lemma StackSymbols(i: nat)
    requires 52 <= i < 60
    ensures SymbolsEncoded(StackRow(i))
  {
  }

  lemma MoveSymbols(i: nat)
    requires 60 <= i < 67
    ensures SymbolsEncoded(MoveRow(i))
  {
  }

  lemma BranchSymbols(i: nat)
    requires 67 <= i < 73
    ensures SymbolsEncoded(BranchRow(i))
  {
  }

  lemma CallSymbols(i: nat)
    requires 73 <= i < 79
    ensures SymbolsEncoded(CallRow(i))
  {
  }

  lemma ReturnSymbols(i: nat)
    requires 79 <= i < 89
    ensures SymbolsEncoded(ReturnRow(i))
  {
  }

  lemma RowSymbols(i: nat)
    requires i < ROWS
    ensures SymbolsEncoded(RowAt(i))
  {
    if i < 8 {
      LogicSymbols(i);
    } else if i < 15 {
      HalfLogicSymbols(i);
    } else if i < 21 {
      ArithmeticSymbols(i);
    } else if i < 31 {
      CompareSymbols(i);
    } else if i < 39 {
      MemorySymbols(i);
    } else if i < 47 {
      ImmediateSymbols(i);
    } else if i < 52 {
      OffsetSymbols(i);
    } else if i < 60 {
      StackSymbols(i);
    } else if i < 67 {
      MoveSymbols(i);
    } else if i < 73 {
      BranchSymbols(i);
    } else if i < 79 {
      CallSymbols(i);
    } else {
      ReturnSymbols(i);
    }
  }

  lemma ResolvesIff(i: nat, inst: Instruction, table: Table)
    requires i < ROWS && RowOk(RowAt(i)) && Fits(RowAt(i), inst)
    ensures Resolves(RowAt(i), inst, Known(table)) <==> SymbolsKnown(inst, table)
    ensures Resolves(RowAt(i), inst, Ignored)
  {
    RowSymbols(i);
    forall k: nat | k < |inst.ops|
      ensures Resolved(RowAt(i).defs[k], inst.ops[k], Known(table))
        <==> (inst.ops[k].kind == SymbolRef ==> Lookup(table, inst.ops[k].name).Some?)
    {
      assert RowAt(i).defs[k].kind == inst.ops[k].kind;
    }
  }

  /** The search finds one encoding for the instruction. */
  ghost predicate Found(inst: Instruction, notLast: bool, syms: Symbols)
    requires TableOk(Insns())
  {
    Encode(Insns(), inst, notLast, syms).Emitted? && |Encode(Insns(), inst, notLast, syms).codes| == 1
  }

  lemma FoundRow(inst: Instruction, notLast: bool, syms: Symbols) returns (i: nat)
    requires Unambiguous(Insns()) && Found(inst, notLast, syms)
    ensures i < ROWS && RowOk(RowAt(i)) && Fits(RowAt(i), inst) && PredOk(inst) && Resolves(RowAt(i), inst, syms)
  {
    EncodesOnce(Insns(), inst, notLast, syms);
    i :| Takes(Insns(), i, inst) && PredOk(inst) && Resolves(Insns()[i], inst, syms);
  }

  lemma RowFinds(i: nat, inst: Instruction, notLast: bool, syms: Symbols)
    requires Unambiguous(Insns()) && Encode(Insns(), inst, notLast, syms).Emitted?
    requires i < ROWS && RowOk(RowAt(i)) && Fits(RowAt(i), inst) && PredOk(inst) && Resolves(RowAt(i), inst, syms)
    ensures Found(inst, notLast, syms)
  {
    EncodesOnce(Insns(), inst, notLast, syms);
    assert Takes(Insns(), i, inst);
  }

  lemma OneNeedsSymbols(inst: Instruction, notLast: bool, table: Table)
    requires Unambiguous(Insns()) && Found(inst, notLast, Ignored)
    ensures Found(inst, notLast, Known(table)) <==> SymbolsKnown(inst, table)
  {
    CrashesAlike(Insns(), inst, notLast, Ignored, Known(table));
    if SymbolsKnown(inst, table) {
      var i := FoundRow(inst, notLast, Ignored);
      ResolvesIff(i, inst, table);
      RowFinds(i, inst, notLast, Known(table));
    } else if Found(inst, notLast, Known(table)) {
      var i := FoundRow(inst, notLast, Known(table));
      ResolvesIff(i, inst, table);
    }
  }

  lemma SearchNeedsSymbols()
    ensures NeedsSymbols(Search())
  {
    InsnsUnambiguous();
    forall inst, notLast, table | Encodes(Search(), inst, notLast, Ignored)
      ensures Encodes(Search(), inst, notLast, Known(table)) <==> SymbolsKnown(inst, table)
    {
      SearchFinds(inst, notLast, Ignored);
      SearchFinds(inst, notLast, Known(table));
      OneNeedsSymbols(inst, notLast, table);
    }
  }

  lemma SearchFinds(inst: Instruction, notLast: bool, syms: Symbols)
    requires TableOk(Insns())
    ensures Encodes(Search(), inst, notLast, syms) <==> Found(inst, notLast, syms)
  {
  }

  lemma {:induction false} SizesAlike(enc: EncodeFn, insts: seq<Instruction>, n: nat, table: Table)
    requires Sound(enc) && n <= |insts|
    requires forall j: nat :: j < n ==>
      Encodes(enc, insts[j], j + 1 < |insts|, Ignored) && Encodes(enc, insts[j], j + 1 < |insts|, Known(table))
    ensures SizeOf(enc, insts, n, Ignored) == SizeOf(enc, insts, n, Known(table))
  {
    if n > 0 {
      SizesAlike(enc, insts, n - 1, table);
      SizeAlike(enc, insts, n - 1, table);
    }
  }

  lemma SizeAlike(enc: EncodeFn, insts: seq<Instruction>, n: nat, table: Table)
    requires Sound(enc) && n < |insts| && SizeOf(enc, insts, n, Ignored) == SizeOf(enc, insts, n, Known(table))
    requires Encodes(enc, insts[n], n + 1 < |insts|, Ignored) && Encodes(enc, insts[n], n + 1 < |insts|, Known(table))
    ensures SizeOf(enc, insts, n + 1, Ignored) == SizeOf(enc, insts, n + 1, Known(table))
  {
    SizeNext(enc, insts, n, Ignored);
    SizeNext(enc, insts, n, Known(table));
    assert SameSize(enc, insts[n], n + 1 < |insts|, table);
  }

  lemma {:induction false} FineAlike(enc: EncodeFn, insts: seq<Instruction>, n: nat, table: Table, addr: Addr)
    requires Sound(enc) && NeedsSymbols(enc) && n <= |insts| && FineBundle(enc, insts, n, Ignored, addr)
    ensures FineBundle(enc, insts, n, Known(table), addr)
      <==> forall j: nat :: j < n ==> SymbolsKnown(insts[j], table)
  {
    if n > 0 {
      FineNext(enc, insts, n - 1, Ignored, addr);
      FineNext(enc, insts, n - 1, Known(table), addr);
      FineAlike(enc, insts, n - 1, table, addr);
      FineOne(enc, insts, n - 1, table, addr);
    }
  }

  lemma FineOne(enc: EncodeFn, insts: seq<Instruction>, n: nat, table: Table, addr: Addr)
    requires Sound(enc) && NeedsSymbols(enc) && n < |insts| && FineBundle(enc, insts, n, Ignored, addr)
    requires Fine(enc, insts, n, Ignored, addr)
    ensures (forall j: nat :: j < n ==> SymbolsKnown(insts[j], table)) ==>
      (Fine(enc, insts, n, Known(table), addr) <==> SymbolsKnown(insts[n], table))
    ensures Fine(enc, insts, n, Known(table), addr) ==> SymbolsKnown(insts[n], table)
  {
    assert Encodes(enc, insts[n], n + 1 < |insts|, Known(table)) <==> SymbolsKnown(insts[n], table);
    if SymbolsKnown(insts[n], table) && forall j: nat :: j < n ==> SymbolsKnown(insts[j], table) {
      forall j: nat | j < n
        ensures Encodes(enc, insts[j], j + 1 < |insts|, Ignored)
        ensures Encodes(enc, insts[j], j + 1 < |insts|, Known(table))
      {
        assert Fine(enc, insts, j, Ignored, addr) && SymbolsKnown(insts[j], table);
      }
      SizesAlike(enc, insts, n, table);
      assert SameSize(enc, insts[n], n + 1 < |insts|, table);
    }
  }

  /** What the second pass asks of an item: an empty one, which only `.align 0` makes, faults. */
  ghost predicate Complete(it: Item, table: Table) {
    IsBundle(it) ==> it.insts != [] && forall j: nat :: j < |it.insts| ==> SymbolsKnown(it.insts[j], table)
  }

  lemma ItemCompletes(enc: EncodeFn, it: Item, table: Table, s: First, m: Mem)
    requires Sound(enc) && NeedsSymbols(enc) && s.mem.addr == m.addr && FirstItem(enc, it, s).Good?
    ensures SecondItem(enc, it, table, m).Good? <==> Complete(it, table)
  {
    if IsBundle(it) {
      BundleGoodIff(enc, it.insts, |it.insts|, Ignored, s.mem);
      BundleGoodIff(enc, it.insts, |it.insts|, Known(table), m);
      FineAlike(enc, it.insts, |it.insts|, table, m.addr);
    }
  }

  ghost predicate AllComplete(items: seq<Item>, n: nat, table: Table)
    requires n <= |items|
  {
    forall k: nat :: k < n ==> Complete(items[k], table)
  }

  lemma AllCompleteNext(items: seq<Item>, n: nat, table: Table)
    requires n < |items|
    ensures AllComplete(items, n + 1, table) <==> AllComplete(items, n, table) && Complete(items[n], table)
  {
  }

  /** Over code that passed the first pass, the second fails at an incomplete item and nowhere else. */
  lemma {:induction false} SecondPassIff(
      enc: EncodeFn, items: seq<Item>, n: nat, table: Table, s: First, m: Mem)
    requires Sound(enc) && NeedsSymbols(enc) && n <= |items| && s.mem.addr == m.addr
    requires FirstPass(enc, items, |items|, s).Good? && AllForward(enc, items, |items|, table, m)
    ensures SecondPass(enc, items, n, table, m).Good? <==> AllComplete(items, n, table)
  {
    if n > 0 {
      SecondPassIff(enc, items, n - 1, table, s, m);
      AllCompleteNext(items, n - 1, table);
      if SecondPass(enc, items, n - 1, table, m).Good? {
        SecondGoesOn(enc, items, n - 1, table, s, m);
      } else {
        SecondStops(enc, items, n - 1, table, m);
      }
    }
  }

  lemma SecondStops(enc: EncodeFn, items: seq<Item>, n: nat, table: Table, m: Mem)
    requires n < |items| && !SecondPass(enc, items, n, table, m).Good?
    ensures !SecondPass(enc, items, n + 1, table, m).Good?
  {
  }

  lemma SecondGoesOn(enc: EncodeFn, items: seq<Item>, n: nat, table: Table, s: First, m: Mem)
    requires Sound(enc) && NeedsSymbols(enc) && n < |items| && s.mem.addr == m.addr
    requires FirstPass(enc, items, |items|, s).Good? && AllForward(enc, items, |items|, table, m)
    requires SecondPass(enc, items, n, table, m).Good?
    ensures SecondPass(enc, items, n + 1, table, m).Good? <==> Complete(items[n], table)
  {
    FirstUnfolds(enc, items, n, s);
    SameAddress(enc, items, n, table, s, m);
    var f, t := FirstPass(enc, items, n, s).value, SecondPass(enc, items, n, table, m).value;
    ItemCompletes(enc, items[n], table, f, t);
    SecondUnfolds(enc, items, n, table, m);
  }

  lemma FirstUnfolds(enc: EncodeFn, items: seq<Item>, n: nat, s: First)
    requires n < |items| && FirstPass(enc, items, |items|, s).Good?
    ensures FirstPass(enc, items, n, s).Good? && FirstItem(enc, items[n], FirstPass(enc, items, n, s).value).Good?
  {
    FirstPassPrefix(enc, items, n + 1, |items|, s);
  }

  lemma SecondUnfolds(enc: EncodeFn, items: seq<Item>, n: nat, table: Table, m: Mem)
    requires n < |items| && SecondPass(enc, items, n, table, m).Good?
    ensures SecondPass(enc, items, n + 1, table, m)
      == SecondItem(enc, items[n], table, SecondPass(enc, items, n, table, m).value)
  {
  }

  lemma SameAddress(enc: EncodeFn, items: seq<Item>, n: nat, table: Table, s: First, m: Mem)
    requires Sound(enc) && n <= |items| && s.mem.addr == m.addr && AllForward(enc, items, |items|, table, m)
    requires FirstPass(enc, items, n, s).Good? && SecondPass(enc, items, n, table, m).Good?
    ensures FirstPass(enc, items, n, s).value.mem.addr == SecondPass(enc, items, n, table, m).value.addr
  {
    PassesAgree(enc, items, n, table, s, m);
    assert FirstAddressOf(enc, items, n, s) == AddressOf(enc, items, n, table, m);
  }

  /** The symbol an entry of the data list stands for is in the table. */
  predicate DatumKnownIn(d: Datum, table: Table) {
    d.labelName.None? && d.skip == 0 && d.symref.Some? ==> Lookup(table, d.symref.value).Some?
  }

  lemma {:induction false} SecondDataIff(data: seq<Datum>, n: nat, table: Table, m: Mem)
    requires n <= |data|
    ensures SecondData(data, n, table, m).Good? <==> forall k: nat :: k < n ==> DatumKnownIn(data[k], table)
  {
    if n > 0 {
      SecondDataIff(data, n - 1, table, m);
    }
  }

  // -------------------------------------------------- in terms of the source

  /** A label of the program, in either list. */
  ghost predicate IsLabel(items: seq<Item>, data: seq<Datum>, name: string) {
    DataLabel(data, |data|, name) || ItemLabel(items, |items|, name)
  }

  ghost predicate NamesLabels(items: seq<Item>, data: seq<Datum>, inst: Instruction) {
    forall o :: 0 <= o < |inst.ops| && inst.ops[o].kind == SymbolRef ==> IsLabel(items, data, inst.ops[o].name)
  }

  /** Every symbol that an instruction or a datum names is a label of the program. */
  ghost predicate SymbolsDefined(items: seq<Item>, data: seq<Datum>) {
    && (forall k: nat, j: nat :: k < |items| && IsBundle(items[k]) && j < |items[k].insts| ==>
          NamesLabels(items, data, items[k].insts[j]))
    && (forall k: nat :: k < |data| && data[k].labelName.None? && data[k].skip == 0 && data[k].symref.Some? ==>
          IsLabel(items, data, data[k].symref.value))
  }

  ghost predicate NoneEmpty(items: seq<Item>) {
    forall k: nat :: k < |items| ==> !IsEmpty(items[k])
  }

  lemma CompleteIff(items: seq<Item>, data: seq<Datum>, table: Table)
    requires Knows(items, |items|, data, table)
    ensures AllComplete(items, |items|, table)
            && (forall k: nat :: k < |data| ==> DatumKnownIn(data[k], table))
      <==> NoneEmpty(items) && SymbolsDefined(items, data)
  {
    forall name
      ensures Lookup(table, name).Some? <==> IsLabel(items, data, name)
    {
    }
  }

  /** Once the first pass is through, and if no padding runs backwards, the assembler accepts exactly the
      programs in which every symbol is a label and no item is empty. */
  lemma AcceptedIff(items: seq<Item>, data: seq<Datum>)
    requires Symtab(Search(), items, data).Good?
    requires AllForward(Search(), items, |items|, Symtab(Search(), items, data).value.table,
                        SecondStart(Search(), items, data))
    ensures GenOpcodes(Search(), items, data).Good? <==> NoneEmpty(items) && SymbolsDefined(items, data)
  {
    InsnsSound();
    SearchNeedsSymbols();
    SymtabIff(Search(), items, data);
    var table, m := Symtab(Search(), items, data).value.table, SecondStart(Search(), items, data);
    SecondDataIff(data, |data|, table, Cleared(DMEM_UNINIT));
    SecondPassIff(Search(), items, |items|, table, CodeStart(data), m);
    CompleteIff(items, data, table);
  }
}

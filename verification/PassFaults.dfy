/** When the assembler dereferences a null pointer in its second pass. */
module PassFaults {
  import opened Words
  import opened Vliwdec
  import opened Encoding
  import opened Alignment
  import opened InsnTable
  import opened UniqueEncoding
  import opened AsmPasses
  import opened PassAgreement
  import Assembler
  import Toolchain

  /** The search crashes with the symbols known only if it crashed without them. */
  ghost predicate CrashesEarly(enc: EncodeFn) {
    forall inst, notLast, table :: enc(inst, notLast, Known(table)).Crashed? ==> enc(inst, notLast, Ignored).Crashed?
  }

  /** Which is so for the search of any table. */
  lemma UsingCrashesEarly(rows: seq<Row>)
    ensures CrashesEarly(Assembler.Using(rows))
  {
    forall inst, notLast, table | Assembler.Using(rows)(inst, notLast, Known(table)).Crashed?
      ensures Assembler.Using(rows)(inst, notLast, Ignored).Crashed?
    {
      if TableOk(rows) {
        CrashesAlike(rows, inst, notLast, Known(table), Ignored);
      }
    }
  }

  /** An instruction that assembled in the first pass does not fault at the same address in the second. */
  lemma InstNoFault(enc: EncodeFn, inst: Instruction, notLast: bool, table: Table, p: Progress, q: Progress)
    requires Sound(enc) && CrashesEarly(enc) && p.mem.addr == q.mem.addr && p.size == q.size
    requires AssembleInst(enc, inst, notLast, Ignored, p).Good?
    ensures !AssembleInst(enc, inst, notLast, Known(table), q).Fault?
  {
    var c := InstCode(enc, inst, notLast, Ignored, p);
    assert OneEncoding(enc, inst, notLast, Known(table)) && SameSize(enc, inst, notLast, table);
    var codes := enc(inst, notLast, Known(table)).codes;
    assert PutCodes(q.mem, codes, 0) == Good(q.mem);
    if codes != [] {
      assert PutCodes(q.mem, codes, 1) == PutCode(q.mem, codes[0]);
      SizeDecides(p.mem, q.mem, c, codes[0]);
    }
  }

  lemma SizeDecides(m: Mem, m': Mem, c: Code, c': Code)
    requires m.addr == m'.addr && c.Size() == c'.Size() && PutCode(m, c).Good?
    ensures PutCode(m', c').Good?
  {
  }

  lemma {:induction false} BundleNoFault(
      enc: EncodeFn, insts: seq<Instruction>, n: nat, table: Table, m: Mem, m': Mem)
    requires Sound(enc) && CrashesEarly(enc) && n <= |insts| && m.addr == m'.addr
    requires AssembleBundle(enc, insts, n, Ignored, m).Good?
    ensures !AssembleBundle(enc, insts, n, Known(table), m').Fault?
  {
    if n > 0 {
      BundleNoFault(enc, insts, n - 1, table, m, m');
      if AssembleBundle(enc, insts, n - 1, Known(table), m').Good? {
        BundleAgrees(enc, insts, n - 1, table, m, m');
        InstNoFault(enc, insts[n - 1], n < |insts|, table,
                    AssembleBundle(enc, insts, n - 1, Ignored, m).value,
                    AssembleBundle(enc, insts, n - 1, Known(table), m').value);
      }
    }
  }

  /** What only `.align 0` makes: neither label nor alignment, and no instruction either. */
  predicate IsEmpty(it: Item) {
    it.labelName.None? && it.align == 0 && it.insts == []
  }

  /** Of the items that pass the first pass, the second faults on the empty ones and no others. */
  lemma ItemFaultsIff(enc: EncodeFn, it: Item, table: Table, s: First, m: Mem)
    requires Sound(enc) && CrashesEarly(enc) && s.mem.addr == m.addr && FirstItem(enc, it, s).Good?
    ensures SecondItem(enc, it, table, m).Fault? <==> IsEmpty(it)
  {
    if it.labelName.None? && it.align == 0 && it.insts != [] {
      BundleNoFault(enc, it.insts, |it.insts|, table, s.mem, m);
    }
  }

  /** The second pass comes to item `k`, and it is empty. */
  ghost predicate MeetsEmpty(enc: EncodeFn, items: seq<Item>, k: nat, table: Table, m: Mem)
    requires k < |items|
  {
    SecondPass(enc, items, k, table, m).Good? && IsEmpty(items[k])
  }

  lemma MeetsEmptyFaults(enc: EncodeFn, items: seq<Item>, k: nat, table: Table, m: Mem)
    requires k < |items| && MeetsEmpty(enc, items, k, table, m)
    ensures SecondPass(enc, items, k + 1, table, m).Fault?
  {
  }

  lemma {:induction false} FaultStays(enc: EncodeFn, items: seq<Item>, k: nat, n: nat, table: Table, m: Mem)
    requires k <= n <= |items| && SecondPass(enc, items, k, table, m).Fault?
    ensures SecondPass(enc, items, n, table, m).Fault?
  {
    if k < n {
      FaultStays(enc, items, k, n - 1, table, m);
    }
  }

  lemma NextFaultIff(enc: EncodeFn, items: seq<Item>, n: nat, table: Table, s: First, m: Mem)
    requires Sound(enc) && CrashesEarly(enc) && n < |items| && s.mem.addr == m.addr
    requires FirstPass(enc, items, n + 1, s).Good? && SecondPass(enc, items, n, table, m).Good?
    requires FirstAddressOf(enc, items, n, s) == AddressOf(enc, items, n, table, m)
    ensures SecondPass(enc, items, n + 1, table, m).Fault? <==> IsEmpty(items[n])
  {
    ItemFaultsIff(enc, items[n], table, FirstPass(enc, items, n, s).value, SecondPass(enc, items, n, table, m).value);
  }

  lemma {:induction false} FaultMeetsEmpty(
      enc: EncodeFn, items: seq<Item>, n: nat, table: Table, s: First, m: Mem) returns (k: nat)
    requires Sound(enc) && CrashesEarly(enc) && n <= |items| && s.mem.addr == m.addr
    requires FirstPass(enc, items, n, s).Good? && AllForward(enc, items, n, table, m)
    requires SecondPass(enc, items, n, table, m).Fault?
    ensures k < n && MeetsEmpty(enc, items, k, table, m)
  {
    if SecondPass(enc, items, n - 1, table, m).Fault? {
      k := FaultMeetsEmpty(enc, items, n - 1, table, s, m);
    } else {
      k := n - 1;
      SameStart(enc, items, k, table, s, m);
      NextFaultIff(enc, items, k, table, s, m);
    }
  }

  lemma SameStart(enc: EncodeFn, items: seq<Item>, n: nat, table: Table, s: First, m: Mem)
    requires Sound(enc) && n <= |items| && s.mem.addr == m.addr && AllForward(enc, items, n, table, m)
    requires FirstPass(enc, items, n, s).Good? && SecondPass(enc, items, n, table, m).Good?
    ensures FirstAddressOf(enc, items, n, s) == AddressOf(enc, items, n, table, m)
  {
    PassesAgree(enc, items, n, table, s, m);
  }

  /** The second pass over code that passed the first one faults if and only if it comes to an empty
      bundle, so long as no padding runs backwards. */
  lemma PassFaultsIff(enc: EncodeFn, items: seq<Item>, table: Table, s: First, m: Mem)
    requires Sound(enc) && CrashesEarly(enc) && s.mem.addr == m.addr
    requires FirstPass(enc, items, |items|, s).Good? && AllForward(enc, items, |items|, table, m)
    ensures SecondPass(enc, items, |items|, table, m).Fault?
      <==> exists k: nat :: k < |items| && MeetsEmpty(enc, items, k, table, m)
  {
    if k: nat :| k < |items| && MeetsEmpty(enc, items, k, table, m) {
      MeetsEmptyFaults(enc, items, k, table, m);
      FaultStays(enc, items, k + 1, |items|, table, m);
    } else if SecondPass(enc, items, |items|, table, m).Fault? {
      var k := FaultMeetsEmpty(enc, items, |items|, table, s, m);
    }
  }

  lemma {:induction false} DataNeverFaults(data: seq<Datum>, n: nat, table: Table, m: Mem)
    requires n <= |data|
    ensures !SecondData(data, n, table, m).Fault?
  {
    if n > 0 {
      DataNeverFaults(data, n - 1, table, m);
    }
  }

  /** The assembler, with its own table: once the first pass is through, the only null pointer it can
      dereference is that of an empty item, so long as no padding runs backwards. It does so if and only
      if the data assembles and the second pass comes to such an item. */
  lemma AssemblerFaultsIff(items: seq<Item>, data: seq<Datum>)
    requires Symtab(Assembler.Using(Insns()), items, data).Good?
    requires var enc := Assembler.Using(Insns());
      AllForward(enc, items, |items|, Symtab(enc, items, data).value.table, SecondStart(enc, items, data))
    ensures var enc := Assembler.Using(Insns());
      var table := Symtab(enc, items, data).value.table;
      GenOpcodes(enc, items, data).Fault?
      <==> && SecondData(data, |data|, table, Cleared(DMEM_UNINIT)).Good?
           && exists k: nat :: k < |items| && MeetsEmpty(enc, items, k, table, SecondStart(enc, items, data))
  {
    var enc := Assembler.Using(Insns());
    var table, m := Symtab(enc, items, data).value.table, SecondStart(enc, items, data);
    Toolchain.InsnsSound();
    UsingCrashesEarly(Insns());
    DataNeverFaults(data, |data|, table, Cleared(DMEM_UNINIT));
    var start := First(Cleared(0), FirstData(data, |data|, []).value.1);
    PassFaultsIff(enc, items, table, start, m);
  }

  /** The input: a program that is nothing but `.align 0` passes the first pass and faults in the second. */
  lemma AlignZeroFaults(enc: EncodeFn)
    ensures var items := [Item(None, 0, [])];
      Symtab(enc, items, []).Good? && GenOpcodes(enc, items, []) == Fault
  {
    var items: seq<Item> := [Item(None, 0, [])];
    var start := First(Cleared(0), []);
    assert FirstData([], 0, []) == Good((0, []));
    assert FirstPass(enc, items, 0, start) == Good(start);
    assert FirstPass(enc, items, 1, start) == Good(start);
    var m := start.mem.(addr := 0);
    assert SecondPass(enc, items, 0, [], m) == Good(m);
    assert SecondPass(enc, items, 1, [], m) == Fault;
  }
}

/** Both passes of the assembler reach every label at the same address. */
module PassAgreement {
  import opened Words
  import opened Vliwdec
  import opened Encoding
  import opened Alignment
  import opened AsmPasses

  // ------------------------------------------------------ the instructions

  /** The search emits at most one encoding, with its size and parallel bits in place. */
  ghost predicate OneEncoding(enc: EncodeFn, inst: Instruction, notLast: bool, syms: Symbols) {
    var e := enc(inst, notLast, syms);
    e.Emitted? && e.codes != [] ==>
      && e.codes == [e.codes[0]]
      && e.codes[0].SizeBitOk()
      && (Par(e.codes[0].lo) <==> notLast)
  }

  /** An encoding with the symbols known had a counterpart of the same size without them. */
  ghost predicate SameSize(enc: EncodeFn, inst: Instruction, notLast: bool, table: Table) {
    var e, e' := enc(inst, notLast, Ignored), enc(inst, notLast, Known(table));
    e'.Emitted? && e'.codes != [] ==>
      e.Emitted? && e.codes != [] && e.codes[0].Size() == e'.codes[0].Size()
  }

  ghost predicate Sound(enc: EncodeFn) {
    && (forall inst, notLast, syms :: OneEncoding(enc, inst, notLast, syms))
    && (forall inst, notLast, table :: SameSize(enc, inst, notLast, table))
  }

  /** The encodings of the first `n` instructions of a bundle. */
  function CodesOf(enc: EncodeFn, insts: seq<Instruction>, n: nat, syms: Symbols): seq<Code>
    requires n <= |insts|
  {
    if n == 0 then []
    else
      CodesOf(enc, insts, n - 1, syms) +
      match enc(insts[n - 1], n < |insts|, syms)
      case Emitted(codes) => codes
      case Crashed => []
  }

  lemma {:induction false} SpanPrefix(a: seq<Code>, b: seq<Code>, n: nat)
    requires n <= |a| && n <= |b| && forall i :: 0 <= i < n ==> a[i].Size() == b[i].Size()
    ensures Span(a, n) == Span(b, n)
  {
    if n > 0 {
      SpanPrefix(a, b, n - 1);
    }
  }

  lemma {:induction false} PutCodesPrefix(m: Mem, a: seq<Code>, b: seq<Code>, n: nat)
    requires n <= |a| && n <= |b| && a[..n] == b[..n]
    ensures PutCodes(m, a, n) == PutCodes(m, b, n)
  {
    if n > 0 {
      assert a[..n - 1] == a[..n][..n - 1] == b[..n][..n - 1] == b[..n - 1];
      assert a[n - 1] == a[..n][n - 1] == b[n - 1];
      PutCodesPrefix(m, a, b, n - 1);
    }
  }

  /** Bundling, read as one list of encodings: sizes, parallel bits, and what is written. */
  ghost predicate Bundled(codes: seq<Code>, n: nat, total: nat, m: Mem, p: Progress) {
    && |codes| == n <= total
    && PutCodes(m, codes, n) == Good(p.mem)
    && p.size == Span(codes, n) <= 4
    && (forall i :: 0 <= i < n ==> codes[i].SizeBitOk() && (Par(codes[i].lo) <==> i + 1 < total))
  }

  lemma OneMore(codes: seq<Code>, c: Code, n: nat, total: nat, m: Mem, p: Progress, q: Mem)
    requires Bundled(codes, n, total, m, p) && n < total
    requires PutCode(p.mem, c) == Good(q) && p.size + c.Size() <= 4
    requires c.SizeBitOk() && (Par(c.lo) <==> n + 1 < total)
    ensures Bundled(codes + [c], n + 1, total, m, Progress(q, p.size + c.Size()))
  {
    var more := codes + [c];
    assert more[..n] == codes[..n];
    PutCodesPrefix(m, more, codes, n);
    SpanPrefix(more, codes, n);
  }

  /** What assembling one instruction of a bundle does, given that it has one encoding. */
  lemma InstCode(enc: EncodeFn, inst: Instruction, notLast: bool, syms: Symbols, p: Progress) returns (c: Code)
    requires Sound(enc) && AssembleInst(enc, inst, notLast, syms, p).Good?
    ensures enc(inst, notLast, syms) == Emitted([c])
    ensures PutCode(p.mem, c).Good? && p.size + c.Size() <= 4
    ensures AssembleInst(enc, inst, notLast, syms, p).value == Progress(PutCode(p.mem, c).value, p.size + c.Size())
    ensures c.SizeBitOk() && (Par(c.lo) <==> notLast)
  {
    assert OneEncoding(enc, inst, notLast, syms);
    var codes := enc(inst, notLast, syms).codes;
    c := codes[0];
    assert PutCodes(p.mem, codes, 0) == Good(p.mem);
    assert Span(codes, 0) == 0;
  }

  lemma {:induction false} BundleCodes(enc: EncodeFn, insts: seq<Instruction>, n: nat, syms: Symbols, m: Mem)
    requires Sound(enc) && n <= |insts| && AssembleBundle(enc, insts, n, syms, m).Good?
    ensures Bundled(CodesOf(enc, insts, n, syms), n, |insts|, m, AssembleBundle(enc, insts, n, syms, m).value)
  {
    if n > 0 {
      BundleCodes(enc, insts, n - 1, syms, m);
      var p := AssembleBundle(enc, insts, n - 1, syms, m).value;
      var c := InstCode(enc, insts[n - 1], n < |insts|, syms, p);
      OneMore(CodesOf(enc, insts, n - 1, syms), c, n - 1, |insts|, m, p, PutCode(p.mem, c).value);
    }
  }

  /** A bundle that assembles is a packet, as the decoder takes it. */
  lemma BundleIsPacket(enc: EncodeFn, insts: seq<Instruction>, syms: Symbols, m: Mem)
    requires Sound(enc) && insts != [] && AssembleBundle(enc, insts, |insts|, syms, m).Good?
    ensures IsPacket(CodesOf(enc, insts, |insts|, syms))
  {
    BundleCodes(enc, insts, |insts|, syms, m);
  }

  // --------------------------------------------- the same size in both passes

  lemma InstAgrees(enc: EncodeFn, inst: Instruction, notLast: bool, table: Table, p: Progress, q: Progress)
    requires Sound(enc) && p.mem.addr == q.mem.addr && p.size == q.size
    requires AssembleInst(enc, inst, notLast, Known(table), q).Good?
    ensures AssembleInst(enc, inst, notLast, Ignored, p).Good?
    ensures var p', q' := AssembleInst(enc, inst, notLast, Ignored, p).value,
                          AssembleInst(enc, inst, notLast, Known(table), q).value;
      p'.mem.addr == q'.mem.addr && p'.size == q'.size
  {
    var c := InstCode(enc, inst, notLast, Known(table), q);
    assert SameSize(enc, inst, notLast, table) && OneEncoding(enc, inst, notLast, Ignored);
    var codes := enc(inst, notLast, Ignored).codes;
    assert PutCodes(p.mem, codes, 0) == Good(p.mem);
    assert Span(codes, 0) == 0;
    var c' := InstCode(enc, inst, notLast, Ignored, p);
  }

  /** A bundle that assembles with the symbols known assembled without them, in as many words. */
  lemma {:induction false} BundleAgrees(
      enc: EncodeFn, insts: seq<Instruction>, n: nat, table: Table, m: Mem, m': Mem)
    requires Sound(enc) && n <= |insts| && m.addr == m'.addr
    requires AssembleBundle(enc, insts, n, Known(table), m').Good?
    ensures AssembleBundle(enc, insts, n, Ignored, m).Good?
    ensures var p, p' := AssembleBundle(enc, insts, n, Ignored, m).value,
                         AssembleBundle(enc, insts, n, Known(table), m').value;
      p.mem.addr == p'.mem.addr && p.size == p'.size
  {
    if n > 0 {
      BundleAgrees(enc, insts, n - 1, table, m, m');
      InstAgrees(enc, insts[n - 1], n < |insts|, table,
                 AssembleBundle(enc, insts, n - 1, Ignored, m).value,
                 AssembleBundle(enc, insts, n - 1, Known(table), m').value);
    }
  }

  // ------------------------------------------------------- alignments

  lemma {:induction false} PutManyAddress(m: Mem, w: bv16, n: nat)
    ensures PutMany(m, w, n).addr == Plus(m.addr, n)
  {
    if n > 0 {
      PutManyAddress(m, w, n - 1);
      PlusPlus(m.addr, n - 1, 1);
    }
  }

  lemma PutNopsAddress(m: Mem, nops: int)
    ensures PutNops(m, nops).addr == Plus(m.addr, if nops > 0 then nops else 0)
  {
    if nops > 0 {
      PutManyAddress(m, 1, nops - 1);
      PlusPlus(m.addr, nops - 1, 1);
    }
  }

  /** The count of nops does not run backwards, or runs backwards by whole turns. */
  predicate Forward(it: Item, addr: Addr) {
    it.labelName.None? && it.align != 0 ==>
      NopsToAdd(addr, it.align) >= 0 || NopsToAdd(addr, it.align) % WORD_SPAN == 0
  }

  /** Alignments below zero, and within 2^16 of the largest int, are outside. */
  predicate Sensible(it: Item) {
    it.labelName.None? ==> 0 <= it.align <= 0x7FFF_0000
  }

  lemma SensibleForward(it: Item, addr: Addr)
    requires Sensible(it)
    ensures Forward(it, addr)
  {
    if it.labelName.None? && it.align != 0 {
      PositiveAlign(addr, it.align);
    }
  }

  // --------------------------------------------------------- whole passes

  /** An item that assembles in the second pass takes both passes to the same next address exactly
      when its padding does not run backwards. */
  lemma ItemAgrees(enc: EncodeFn, it: Item, table: Table, s: First, m: Mem)
    requires Sound(enc) && s.mem.addr == m.addr
    requires SecondItem(enc, it, table, m).Good? && FirstItem(enc, it, s).Good?
    ensures FirstItem(enc, it, s).value.mem.addr == SecondItem(enc, it, table, m).value.addr
      <==> Forward(it, m.addr)
  {
    if it.labelName.None? {
      if it.align != 0 {
        PutNopsAddress(m, NopsToAdd(m.addr, it.align));
        PassesAlignAlike(m.addr, it.align);
      } else {
        BundleAgrees(enc, it.insts, |it.insts|, table, s.mem, m);
      }
    }
  }

  /** Where an item starts in the second pass, if the pass gets there. */
  function AddressOf(enc: EncodeFn, items: seq<Item>, n: nat, table: Table, m: Mem): Addr
    requires n <= |items|
  {
    if SecondPass(enc, items, n, table, m).Good? then SecondPass(enc, items, n, table, m).value.addr else 0
  }

  /** Where an item starts in the first pass, if the pass gets there. */
  function FirstAddressOf(enc: EncodeFn, items: seq<Item>, n: nat, s: First): Addr
    requires n <= |items|
  {
    if FirstPass(enc, items, n, s).Good? then FirstPass(enc, items, n, s).value.mem.addr else 0
  }

  /** The padding of the first `n` items does not run backwards. */
  ghost predicate AllForward(enc: EncodeFn, items: seq<Item>, n: nat, table: Table, m: Mem)
    requires n <= |items|
  {
    forall k: nat :: k < n ==> Forward(items[k], AddressOf(enc, items, k, table, m))
  }

  /** Both passes are at one address before each of the first `n` items, and after them. */
  ghost predicate InStep(enc: EncodeFn, items: seq<Item>, n: nat, table: Table, s: First, m: Mem)
    requires n <= |items|
  {
    forall k: nat :: k <= n ==> FirstAddressOf(enc, items, k, s) == AddressOf(enc, items, k, table, m)
  }

  lemma NextInStep(enc: EncodeFn, items: seq<Item>, n: nat, table: Table, s: First, m: Mem)
    requires Sound(enc) && n < |items|
    requires FirstPass(enc, items, n + 1, s).Good? && SecondPass(enc, items, n + 1, table, m).Good?
    requires FirstAddressOf(enc, items, n, s) == AddressOf(enc, items, n, table, m)
    ensures FirstAddressOf(enc, items, n + 1, s) == AddressOf(enc, items, n + 1, table, m)
      <==> Forward(items[n], AddressOf(enc, items, n, table, m))
  {
    ItemAgrees(enc, items[n], table, FirstPass(enc, items, n, s).value, SecondPass(enc, items, n, table, m).value);
  }

  /** Two lists that start alike agree throughout exactly when no step parts them. */
  lemma {:induction false} StepByStep(a: seq<Addr>, b: seq<Addr>, keeps: seq<bool>, n: nat)
    requires n <= |keeps| && |a| == |b| == |keeps| + 1 && a[0] == b[0]
    requires forall k: nat :: k < n && a[k] == b[k] ==> (a[k + 1] == b[k + 1] <==> keeps[k])
    ensures (forall k: nat :: k <= n ==> a[k] == b[k]) <==> (forall k: nat :: k < n ==> keeps[k])
  {
    if n > 0 {
      StepByStep(a, b, keeps, n - 1);
      var k := n - 1;
      assert a[k] == b[k] ==> (a[k + 1] == b[k + 1] <==> keeps[k]);
      assert a[n] == a[k + 1] && b[n] == b[k + 1];
    }
  }

  /** The addresses before each of the first `n` items and after them, in either pass. */
  function FirstAddresses(enc: EncodeFn, items: seq<Item>, n: nat, s: First): (a: seq<Addr>)
    requires n <= |items|
    ensures |a| == n + 1 && forall k: nat :: k <= n ==> a[k] == FirstAddressOf(enc, items, k, s)
  {
    seq(n + 1, k requires 0 <= k <= n => FirstAddressOf(enc, items, k, s))
  }

  function Addresses(enc: EncodeFn, items: seq<Item>, n: nat, table: Table, m: Mem): (a: seq<Addr>)
    requires n <= |items|
    ensures |a| == n + 1 && forall k: nat :: k <= n ==> a[k] == AddressOf(enc, items, k, table, m)
  {
    seq(n + 1, k requires 0 <= k <= n => AddressOf(enc, items, k, table, m))
  }

  /** The passes keep in step if and only if no padding runs backwards. */
  lemma PassesAgree(enc: EncodeFn, items: seq<Item>, n: nat, table: Table, s: First, m: Mem)
    requires Sound(enc) && n <= |items| && s.mem.addr == m.addr
    requires FirstPass(enc, items, n, s).Good? && SecondPass(enc, items, n, table, m).Good?
    ensures InStep(enc, items, n, table, s, m) <==> AllForward(enc, items, n, table, m)
  {
    var a, b := FirstAddresses(enc, items, n, s), Addresses(enc, items, n, table, m);
    var keeps := seq(n, k requires 0 <= k < n => Forward(items[k], b[k]));
    forall k: nat | k < n && a[k] == b[k]
      ensures a[k + 1] == b[k + 1] <==> keeps[k]
    {
      FirstPassPrefix(enc, items, k + 1, n, s);
      SecondPassPrefix(enc, items, k + 1, n, table, m);
      NextInStep(enc, items, k, table, s, m);
    }
    StepByStep(a, b, keeps, n);
    ReadInStep(enc, items, n, table, s, m, a, b, keeps);
  }

  lemma ReadInStep(
      enc: EncodeFn, items: seq<Item>, n: nat, table: Table, s: First, m: Mem,
      a: seq<Addr>, b: seq<Addr>, keeps: seq<bool>)
    requires n <= |items| && a == FirstAddresses(enc, items, n, s) && b == Addresses(enc, items, n, table, m)
    requires |keeps| == n && forall k: nat :: k < n ==> keeps[k] == Forward(items[k], b[k])
    ensures InStep(enc, items, n, table, s, m) <==> forall k: nat :: k <= n ==> a[k] == b[k]
    ensures AllForward(enc, items, n, table, m) <==> forall k: nat :: k < n ==> keeps[k]
  {
  }

  /** In particular where all alignments are sensible. */
  lemma SensibleAllForward(enc: EncodeFn, items: seq<Item>, table: Table, m: Mem)
    requires forall i :: 0 <= i < |items| ==> Sensible(items[i])
    ensures AllForward(enc, items, |items|, table, m)
  {
    forall k: nat | k < |items|
      ensures Forward(items[k], AddressOf(enc, items, k, table, m))
    {
      SensibleForward(items[k], AddressOf(enc, items, k, table, m));
    }
  }

  lemma {:induction false} FirstPassPrefix(enc: EncodeFn, items: seq<Item>, k: nat, n: nat, s: First)
    requires k <= n <= |items| && FirstPass(enc, items, n, s).Good?
    ensures FirstPass(enc, items, k, s).Good?
  {
    if k < n {
      FirstPassPrefix(enc, items, k, n - 1, s);
    }
  }

  lemma {:induction false} SecondPassPrefix(enc: EncodeFn, items: seq<Item>, k: nat, n: nat, table: Table, m: Mem)
    requires k <= n <= |items| && SecondPass(enc, items, n, table, m).Good?
    ensures SecondPass(enc, items, k, table, m).Good?
  {
    if k < n {
      SecondPassPrefix(enc, items, k, n - 1, table, m);
    }
  }

  /** Once defined, a symbol keeps its address: the table grows by fresh names only. */
  lemma {:induction false} SymbolsStay(enc: EncodeFn, items: seq<Item>, k: nat, n: nat, s: First, name: string)
    requires k <= n <= |items|
    requires FirstPass(enc, items, n, s).Good? && FirstPass(enc, items, k, s).Good?
    requires Lookup(FirstPass(enc, items, k, s).value.table, name).Some?
    ensures Lookup(FirstPass(enc, items, n, s).value.table, name)
      == Lookup(FirstPass(enc, items, k, s).value.table, name)
  {
    if k < n {
      SymbolsStay(enc, items, k, n - 1, s, name);
      var t, u := FirstPass(enc, items, n - 1, s).value, FirstPass(enc, items, n, s).value;
      if items[n - 1].labelName.Some? {
        assert u.table[1..] == t.table;
      }
    }
  }

  lemma LabelDefined(enc: EncodeFn, items: seq<Item>, k: nat, s: First)
    requires k < |items| && items[k].labelName.Some?
    requires FirstPass(enc, items, k + 1, s).Good?
    ensures FirstPass(enc, items, k, s).Good?
    ensures Lookup(FirstPass(enc, items, k + 1, s).value.table, items[k].labelName.value)
      == Some(FirstPass(enc, items, k, s).value.mem.addr)
  {
  }

  /** A label means the address at which the second pass puts the next item if and only if the passes
      are at one address there. */
  lemma LabelsAgree(enc: EncodeFn, items: seq<Item>, k: nat, s: First, m: Mem, table: Table)
    requires Sound(enc) && s.mem.addr == m.addr && k < |items| && items[k].labelName.Some?
    requires FirstPass(enc, items, |items|, s).Good? && table == FirstPass(enc, items, |items|, s).value.table
    requires SecondPass(enc, items, |items|, table, m).Good?
    ensures SecondPass(enc, items, k, table, m).Good?
    ensures Lookup(table, items[k].labelName.value) == Some(AddressOf(enc, items, k, table, m))
      <==> FirstAddressOf(enc, items, k, s) == AddressOf(enc, items, k, table, m)
    ensures AllForward(enc, items, k, table, m) ==>
      Lookup(table, items[k].labelName.value) == Some(AddressOf(enc, items, k, table, m))
  {
    LabelKept(enc, items, k, s);
    SecondPassPrefix(enc, items, k, |items|, table, m);
    PassesAgree(enc, items, k, table, s, m);
  }

  lemma LabelKept(enc: EncodeFn, items: seq<Item>, k: nat, s: First)
    requires k < |items| && items[k].labelName.Some?
    requires FirstPass(enc, items, |items|, s).Good?
    ensures FirstPass(enc, items, k, s).Good?
    ensures Lookup(FirstPass(enc, items, |items|, s).value.table, items[k].labelName.value)
      == Some(FirstPass(enc, items, k, s).value.mem.addr)
  {
    FirstPassPrefix(enc, items, k + 1, |items|, s);
    LabelDefined(enc, items, k, s);
    SymbolsStay(enc, items, k + 1, |items|, s, items[k].labelName.value);
  }

  // --------------------------------------------------------- the data list

  /** A gap that does not run backwards, or by whole turns. */
  predicate ForwardDatum(d: Datum) {
    d.labelName.None? ==> d.skip >= 0 || d.skip % WORD_SPAN == 0
  }

  /** A gap takes both passes to the same next address exactly when it does not run backwards. */
  lemma DatumAgrees(d: Datum, t: Table, table: Table, m: Mem)
    requires FirstDatum(d, m.addr, t).Good? && SecondDatum(d, table, m).Good?
    ensures FirstDatum(d, m.addr, t).value.0 == SecondDatum(d, table, m).value.addr
      <==> ForwardDatum(d)
  {
    if d.labelName.None? && d.skip > 0 {
      PutManyAddress(m, DMEM_UNINIT, d.skip);
    } else if d.labelName.None? && d.skip < 0 {
      PlusNeutral(m.addr, d.skip);
    }
  }

  lemma {:induction false} DataPrefix(data: seq<Datum>, k: nat, n: nat, t: Table, table: Table, m: Mem)
    requires k <= n <= |data| && FirstData(data, n, t).Good? && SecondData(data, n, table, m).Good?
    ensures FirstData(data, k, t).Good? && SecondData(data, k, table, m).Good?
  {
    if k < n {
      DataPrefix(data, k, n - 1, t, table, m);
    }
  }

  function FirstDataAddresses(data: seq<Datum>, n: nat, t: Table): (a: seq<Addr>)
    requires n <= |data|
    ensures |a| == n + 1
    ensures forall k: nat :: k <= n && FirstData(data, k, t).Good? ==> a[k] == FirstData(data, k, t).value.0
  {
    seq(n + 1, k requires 0 <= k <= n => if FirstData(data, k, t).Good? then FirstData(data, k, t).value.0 else 0)
  }

  function DataAddresses(data: seq<Datum>, n: nat, table: Table, m: Mem): (a: seq<Addr>)
    requires n <= |data|
    ensures |a| == n + 1
    ensures forall k: nat :: k <= n && SecondData(data, k, table, m).Good? ==>
      a[k] == SecondData(data, k, table, m).value.addr
  {
    seq(n + 1, k requires 0 <= k <= n =>
      if SecondData(data, k, table, m).Good? then SecondData(data, k, table, m).value.addr else 0)
  }

  /** Over the data, too, the passes keep in step if and only if no gap runs backwards. */
  lemma DataAgrees(data: seq<Datum>, n: nat, t: Table, table: Table, m: Mem)
    requires n <= |data| && m.addr == 0
    requires FirstData(data, n, t).Good? && SecondData(data, n, table, m).Good?
    ensures (forall k: nat :: k <= n ==> FirstDataAddresses(data, n, t)[k] == DataAddresses(data, n, table, m)[k])
      <==> (forall k: nat :: k < n ==> ForwardDatum(data[k]))
  {
    var a, b := FirstDataAddresses(data, n, t), DataAddresses(data, n, table, m);
    var keeps := seq(n, k requires 0 <= k < n => ForwardDatum(data[k]));
    forall k: nat | k < n && a[k] == b[k]
      ensures a[k + 1] == b[k + 1] <==> keeps[k]
    {
      DataPrefix(data, k + 1, n, t, table, m);
      DatumAgrees(data[k], FirstData(data, k, t).value.1, table, SecondData(data, k, table, m).value);
    }
    StepByStep(a, b, keeps, n);
    assert forall k: nat :: k < n ==> keeps[k] == ForwardDatum(data[k]);
  }

  lemma {:induction false} DataSymbolsStay(data: seq<Datum>, k: nat, n: nat, t: Table, name: string)
    requires k <= n <= |data| && FirstData(data, n, t).Good? && FirstData(data, k, t).Good?
    requires Lookup(FirstData(data, k, t).value.1, name).Some?
    ensures Lookup(FirstData(data, n, t).value.1, name) == Lookup(FirstData(data, k, t).value.1, name)
  {
    if k < n {
      DataSymbolsStay(data, k, n - 1, t, name);
      if data[n - 1].labelName.Some? {
        assert FirstData(data, n, t).value.1[1..] == FirstData(data, n - 1, t).value.1;
      }
    }
  }

  /** A data label means the address at which the second pass puts the next datum. */
  lemma DataLabelsAgree(data: seq<Datum>, k: nat, table: Table, m: Mem)
    requires k < |data| && data[k].labelName.Some? && m.addr == 0
    requires forall i :: 0 <= i < |data| ==> ForwardDatum(data[i])
    requires FirstData(data, |data|, []).Good? && SecondData(data, |data|, table, m).Good?
    ensures SecondData(data, k, table, m).Good?
    ensures Lookup(FirstData(data, |data|, []).value.1, data[k].labelName.value)
      == Some(SecondData(data, k, table, m).value.addr)
  {
    DataPrefix(data, k + 1, |data|, [], table, m);
    DataPrefix(data, k, k + 1, [], table, m);
    DataAgrees(data, k, [], table, m);
    assert FirstDataAddresses(data, k, [])[k] == DataAddresses(data, k, table, m)[k];
    assert Lookup(FirstData(data, k + 1, []).value.1, data[k].labelName.value) == Some(FirstData(data, k, []).value.0);
    DataSymbolsStay(data, k + 1, |data|, [], data[k].labelName.value);
  }

  // ------------------------------------------------ the assembler as a whole

  ghost predicate SensibleProgram(items: seq<Item>, data: seq<Datum>) {
    && (forall i :: 0 <= i < |items| ==> Sensible(items[i]))
    && (forall i :: 0 <= i < |data| && data[i].labelName.None? ==> data[i].skip >= 0)
  }

  /** The memory the second pass starts from. */
  function SecondStart(enc: EncodeFn, items: seq<Item>, data: seq<Datum>): Mem
    requires Symtab(enc, items, data).Good?
  {
    Symtab(enc, items, data).value.mem.(addr := 0)
  }

  /** No alignment and no gap of the program runs backwards. */
  ghost predicate ForwardProgram(enc: EncodeFn, items: seq<Item>, data: seq<Datum>)
    requires GenOpcodes(enc, items, data).Good?
  {
    && AllForward(enc, items, |items|, GenOpcodes(enc, items, data).value.table, SecondStart(enc, items, data))
    && forall i :: 0 <= i < |data| ==> ForwardDatum(data[i])
  }

  /** Which holds of every sensible program. */
  lemma SensibleIsForward(enc: EncodeFn, items: seq<Item>, data: seq<Datum>)
    requires SensibleProgram(items, data) && GenOpcodes(enc, items, data).Good?
    ensures ForwardProgram(enc, items, data)
  {
    SensibleAllForward(enc, items, GenOpcodes(enc, items, data).value.table, SecondStart(enc, items, data));
  }

  /** In a program that assembles and in which nothing runs backwards, every label means the address at
      which the image has what follows. */
  lemma SymbolsMeanAddresses(enc: EncodeFn, items: seq<Item>, data: seq<Datum>)
    requires Sound(enc) && GenOpcodes(enc, items, data).Good? && ForwardProgram(enc, items, data)
    ensures var table, m := GenOpcodes(enc, items, data).value.table, SecondStart(enc, items, data);
      && (forall k :: 0 <= k < |items| && items[k].labelName.Some? ==>
            && SecondPass(enc, items, k, table, m).Good?
            && Lookup(table, items[k].labelName.value) == Some(AddressOf(enc, items, k, table, m)))
      && (forall k :: 0 <= k < |data| && data[k].labelName.Some? ==>
            && SecondData(data, k, table, Cleared(DMEM_UNINIT)).Good?
            && Lookup(table, data[k].labelName.value)
               == Some(SecondData(data, k, table, Cleared(DMEM_UNINIT)).value.addr))
  {
    var table, m := GenOpcodes(enc, items, data).value.table, SecondStart(enc, items, data);
    var start := First(Cleared(0), FirstData(data, |data|, []).value.1);
    forall k | 0 <= k < |items| && items[k].labelName.Some?
      ensures SecondPass(enc, items, k, table, m).Good?
      ensures Lookup(table, items[k].labelName.value) == Some(AddressOf(enc, items, k, table, m))
    {
      LabelsAgree(enc, items, k, start, m, table);
    }
    forall k | 0 <= k < |data| && data[k].labelName.Some?
      ensures SecondData(data, k, table, Cleared(DMEM_UNINIT)).Good?
      ensures Lookup(table, data[k].labelName.value)
        == Some(SecondData(data, k, table, Cleared(DMEM_UNINIT)).value.addr)
    {
      DataLabelsAgree(data, k, table, Cleared(DMEM_UNINIT));
      SymbolsStay(enc, items, 0, |items|, start, data[k].labelName.value);
    }
  }
}

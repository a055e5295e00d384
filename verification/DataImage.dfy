/** What the data memory holds: the values and addresses of the data list, each at its place. */
module DataImage {
  import opened Words
  import opened Encoding
  import opened Alignment
  import opened AsmPasses
  import opened PassAgreement

  /** The words one entry of the data list stands for. */
  function DatumWords(d: Datum, table: Table): seq<bv16> {
    if d.labelName.Some? then []
    else if d.skip != 0 then (if d.skip > 0 then seq(d.skip, _ => 0xDEAD) else [])
    else if d.symref.Some? then
      match Lookup(table, d.symref.value)
      case Some(a) => [a as bv16]
      case None => []
    else [(d.value % WORD_SPAN) as bv16]
  }

  function DataWords(data: seq<Datum>, n: nat, table: Table): seq<bv16>
    requires n <= |data|
  {
    if n == 0 then [] else DataWords(data, n - 1, table) + DatumWords(data[n - 1], table)
  }

  /** The memory holds the words from its start, and elsewhere what it was cleared with. */
  ghost predicate Filled(m: Mem, ws: seq<bv16>) {
    && |ws| < WORD_SPAN && m.addr == |ws|
    && (forall a: nat :: a < |ws| ==> m.cells[a] == ws[a])
    && (forall a: nat :: |ws| <= a < WORD_SPAN ==> m.cells[a] == 0xDEAD)
  }

  lemma PutFills(m: Mem, ws: seq<bv16>, w: bv16)
    requires Filled(m, ws) && |ws| + 1 < WORD_SPAN
    ensures Filled(Put(m, w), ws + [w])
  {
  }

  lemma {:induction false} PutManyFills(m: Mem, ws: seq<bv16>, n: nat)
    requires Filled(m, ws) && |ws| + n < WORD_SPAN
    ensures Filled(PutMany(m, DMEM_UNINIT, n), ws + seq(n, _ => 0xDEAD))
  {
    if n == 0 {
      assert ws + seq(0, _ => 0xDEAD) == ws;
    } else {
      PutManyFills(m, ws, n - 1);
      PutFills(PutMany(m, DMEM_UNINIT, n - 1), ws + seq(n - 1, _ => 0xDEAD), 0xDEAD);
      assert ws + seq(n - 1, _ => 0xDEAD) + [0xDEAD] == ws + seq(n, _ => 0xDEAD);
    }
  }

  lemma DatumFills(d: Datum, table: Table, m: Mem, ws: seq<bv16>)
    requires Filled(m, ws) && SecondDatum(d, table, m).Good? && |ws| + |DatumWords(d, table)| < WORD_SPAN
    ensures Filled(SecondDatum(d, table, m).value, ws + DatumWords(d, table))
  {
    if d.labelName.Some? {
      assert ws + [] == ws;
    } else if d.skip > 0 {
      PutManyFills(m, ws, d.skip);
    } else if d.skip < 0 {
      assert ws + [] == ws;
    } else {
      PutFills(m, ws, DatumWords(d, table)[0]);
    }
  }

  lemma {:induction false} DataFills(data: seq<Datum>, n: nat, table: Table, m: Mem)
    requires n <= |data| && Filled(m, []) && SecondData(data, n, table, m).Good?
    requires |DataWords(data, n, table)| < WORD_SPAN
    ensures Filled(SecondData(data, n, table, m).value, DataWords(data, n, table))
  {
    if n > 0 {
      DataFills(data, n - 1, table, m);
      DatumFills(data[n - 1], table, SecondData(data, n - 1, table, m).value, DataWords(data, n - 1, table));
    }
  }

  lemma {:induction false} DataWordsPrefix(data: seq<Datum>, k: nat, n: nat, table: Table)
    requires k <= n <= |data|
    ensures DataWords(data, k, table) <= DataWords(data, n, table)
    decreases n - k
  {
    if k < n {
      DataWordsPrefix(data, k, n - 1, table);
    }
  }

  lemma {:induction false} SecondDataPrefix(data: seq<Datum>, k: nat, n: nat, table: Table, m: Mem)
    requires k <= n <= |data| && SecondData(data, n, table, m).Good?
    ensures SecondData(data, k, table, m).Good?
  {
    if k < n {
      SecondDataPrefix(data, k, n - 1, table, m);
    }
  }

  /** The program assembles, and its data is smaller than the address space. */
  ghost predicate FitsData(enc: EncodeFn, items: seq<Item>, data: seq<Datum>) {
    && GenOpcodes(enc, items, data).Good?
    && |DataWords(data, |data|, GenOpcodes(enc, items, data).value.table)| < WORD_SPAN
  }

  /** Where an entry starts. */
  function PlaceOf(data: seq<Datum>, k: nat, table: Table): nat
    requires k <= |data|
  {
    |DataWords(data, k, table)|
  }

  /** The entry holds a word of its own: it is no label and no gap. */
  predicate IsValue(d: Datum) {
    d.labelName.None? && d.skip == 0
  }

  lemma EntryAt(data: seq<Datum>, k: nat, table: Table)
    requires k < |data|
    ensures PlaceOf(data, k, table) + |DatumWords(data[k], table)| == PlaceOf(data, k + 1, table)
    ensures PlaceOf(data, k + 1, table) <= |DataWords(data, |data|, table)|
    ensures forall j: nat :: j < |DatumWords(data[k], table)| ==>
      DataWords(data, |data|, table)[PlaceOf(data, k, table) + j] == DatumWords(data[k], table)[j]
  {
    var ws := DataWords(data, k + 1, table);
    DataWordsPrefix(data, k + 1, |data|, table);
    forall j: nat | j < |DatumWords(data[k], table)|
      ensures DataWords(data, |data|, table)[PlaceOf(data, k, table) + j] == DatumWords(data[k], table)[j]
    {
      assert ws[PlaceOf(data, k, table) + j] == DatumWords(data[k], table)[j];
    }
  }

  lemma DataAssembled(enc: EncodeFn, items: seq<Item>, data: seq<Datum>)
    requires FitsData(enc, items, data)
    ensures var out := GenOpcodes(enc, items, data).value;
      && SecondData(data, |data|, out.table, Cleared(DMEM_UNINIT)) == Good(out.dmem)
      && Filled(out.dmem, DataWords(data, |data|, out.table))
  {
    SecondDataRan(enc, items, data);
    DataFills(data, |data|, GenOpcodes(enc, items, data).value.table, Cleared(DMEM_UNINIT));
  }

  lemma SecondDataRan(enc: EncodeFn, items: seq<Item>, data: seq<Datum>)
    requires GenOpcodes(enc, items, data).Good?
    ensures var out := GenOpcodes(enc, items, data).value;
      SecondData(data, |data|, out.table, Cleared(DMEM_UNINIT)) == Good(out.dmem)
  {
  }

  /** The memory holds an entry at `at`: a value modulo 2^16, a symbol's address, or a gap. */
  ghost predicate Holds(dmem: Mem, at: nat, d: Datum, table: Table) {
    && (IsValue(d) && d.symref.None? ==> at < WORD_SPAN && dmem.cells[at] == (d.value % 0x1_0000) as bv16)
    && (IsValue(d) && d.symref.Some? ==>
          && at < WORD_SPAN && Lookup(table, d.symref.value).Some?
          && dmem.cells[at] == Lookup(table, d.symref.value).value as bv16)
    && (d.labelName.None? && d.skip > 0 ==>
          at + d.skip < WORD_SPAN && forall a: nat :: at <= a < at + d.skip ==> dmem.cells[a] == 0xDEAD)
  }

  /** The memory holds the words of an entry at `at`. */
  ghost predicate HoldsWords(dmem: Mem, at: nat, ws: seq<bv16>) {
    at + |ws| < WORD_SPAN && forall j: nat :: j < |ws| ==> dmem.cells[at + j] == ws[j]
  }

  lemma EntryWords(data: seq<Datum>, k: nat, table: Table, dmem: Mem)
    requires k < |data| && Filled(dmem, DataWords(data, |data|, table))
    ensures HoldsWords(dmem, PlaceOf(data, k, table), DatumWords(data[k], table))
  {
    var at, ws := PlaceOf(data, k, table), DatumWords(data[k], table);
    EntryAt(data, k, table);
    forall j: nat | j < |ws|
      ensures dmem.cells[at + j] == ws[j]
    {
      assert DataWords(data, |data|, table)[at + j] == ws[j];
    }
  }

  lemma WordsHeld(d: Datum, table: Table, m: Mem, dmem: Mem, at: nat)
    requires SecondDatum(d, table, m).Good? && HoldsWords(dmem, at, DatumWords(d, table))
    ensures Holds(dmem, at, d, table)
  {
    var ws := DatumWords(d, table);
    if IsValue(d) {
      assert dmem.cells[at + 0] == ws[0];
    }
    forall a: nat | d.labelName.None? && d.skip > 0 && at <= a < at + d.skip
      ensures dmem.cells[a] == 0xDEAD
    {
      assert dmem.cells[at + (a - at)] == ws[a - at];
    }
  }

  lemma EntryHeld(data: seq<Datum>, k: nat, table: Table, m: Mem, dmem: Mem)
    requires k < |data| && SecondDatum(data[k], table, m).Good?
    requires Filled(dmem, DataWords(data, |data|, table))
    ensures Holds(dmem, PlaceOf(data, k, table), data[k], table)
  {
    EntryWords(data, k, table, dmem);
    WordsHeld(data[k], table, m, dmem, PlaceOf(data, k, table));
  }

  /** The data image: every entry is in the memory at the place where the second pass comes to it. */
  lemma DataImageHolds(enc: EncodeFn, items: seq<Item>, data: seq<Datum>, k: nat)
    requires FitsData(enc, items, data) && k < |data|
    ensures var out, start := GenOpcodes(enc, items, data).value, Cleared(DMEM_UNINIT);
      && SecondData(data, k, out.table, start).Good?
      && Holds(out.dmem, SecondData(data, k, out.table, start).value.addr, data[k], out.table)
  {
    var table, dmem := GenOpcodes(enc, items, data).value.table, GenOpcodes(enc, items, data).value.dmem;
    DataAssembled(enc, items, data);
    SecondDataPrefix(data, k + 1, |data|, table, Cleared(DMEM_UNINIT));
    SecondDataPrefix(data, k, |data|, table, Cleared(DMEM_UNINIT));
    DataWordsPrefix(data, k, |data|, table);
    DataFills(data, k, table, Cleared(DMEM_UNINIT));
    EntryHeld(data, k, table, SecondData(data, k, table, Cleared(DMEM_UNINIT)).value, dmem);
  }

  /** So a label of the data list means the address at which the entry after it is held. */
  lemma LabelledEntry(enc: EncodeFn, items: seq<Item>, data: seq<Datum>, k: nat)
    requires Sound(enc) && FitsData(enc, items, data) && ForwardProgram(enc, items, data)
    requires k + 1 < |data| && data[k].labelName.Some?
    ensures var out := GenOpcodes(enc, items, data).value;
      && Lookup(out.table, data[k].labelName.value).Some?
      && Holds(out.dmem, Lookup(out.table, data[k].labelName.value).value, data[k + 1], out.table)
  {
    SymbolsMeanAddresses(enc, items, data);
    DataImageHolds(enc, items, data, k);
    DataImageHolds(enc, items, data, k + 1);
  }

  /** Beyond the end nothing is written, and the end is where the second pass stops. */
  lemma RestIsUninitialised(enc: EncodeFn, items: seq<Item>, data: seq<Datum>, a: Addr)
    requires FitsData(enc, items, data) && a >= GenOpcodes(enc, items, data).value.dmem.addr
    ensures GenOpcodes(enc, items, data).value.dmem.cells[a] == 0xDEAD
  {
    DataAssembled(enc, items, data);
  }
}

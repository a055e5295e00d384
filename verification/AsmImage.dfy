/** The image the assembler writes, read back by the decoder: a round trip. */
module AsmImage {
  import opened Words
  import opened Vliwdec
  import opened Encoding
  import opened Alignment
  import opened AsmPasses
  import opened PassAgreement

  // ----------------------------------------------------------- words

  function CodeWords(c: Code): seq<bv16> {
    if c.Short? then [c.lo] else [c.lo, c.hi]
  }

  function PacketWords(codes: seq<Code>, n: nat): (ws: seq<bv16>)
    requires n <= |codes|
    ensures |ws| == Span(codes, n)
  {
    if n == 0 then [] else PacketWords(codes, n - 1) + CodeWords(codes[n - 1])
  }

  function Flatten(packets: seq<seq<Code>>): seq<bv16> {
    if packets == [] then [] else PacketWords(packets[0], |packets[0]|) + Flatten(packets[1..])
  }

  lemma {:induction false} FlattenAppend(a: seq<seq<Code>>, b: seq<seq<Code>>)
    ensures Flatten(a + b) == Flatten(a) + Flatten(b)
    decreases |a|
  {
    if a == [] {
      assert a + b == b;
    } else {
      assert (a + b)[1..] == a[1..] + b;
      FlattenAppend(a[1..], b);
    }
  }

  lemma FlattenOne(codes: seq<Code>)
    ensures Flatten([codes]) == PacketWords(codes, |codes|)
  {
    assert Flatten([]) == [];
  }

  /** The offset of packet `i`. */
  function PacketStart(packets: seq<seq<Code>>, i: nat): nat
    requires i <= |packets|
  {
    |Flatten(packets[..i])|
  }

  lemma NextStart(packets: seq<seq<Code>>, i: nat)
    requires i < |packets|
    ensures PacketStart(packets, i + 1) == PacketStart(packets, i) + Span(packets[i], |packets[i]|)
  {
    assert packets[..i + 1] == packets[..i] + [packets[i]];
    FlattenAppend(packets[..i], [packets[i]]);
    FlattenOne(packets[i]);
  }

  ghost predicate AllPackets(packets: seq<seq<Code>>) {
    forall i :: 0 <= i < |packets| ==> IsPacket(packets[i])
  }

  // --------------------------------------------------------- nop padding

  const FULL_GROUP: seq<Code> := [Short(1), Short(1), Short(1), Short(1)]

  function LastGroup(k: nat): seq<Code>
    requires 1 <= k <= 4
  {
    if k == 1 then [Short(0)] else [Short(1)] + LastGroup(k - 1)
  }

  /** How the decoder sees padding: groups of four nops, the last one shorter. */
  function Padding(k: nat): seq<seq<Code>> {
    if k == 0 then [] else if k <= 4 then [LastGroup(k)] else [FULL_GROUP] + Padding(k - 4)
  }

  function NopWords(k: nat): seq<bv16> {
    if k == 0 then [] else if k == 1 then [0] else [1] + NopWords(k - 1)
  }

  lemma {:induction false} LastGroupWords(k: nat)
    requires 1 <= k <= 4
    ensures IsPacket(LastGroup(k)) && Span(LastGroup(k), |LastGroup(k)|) == k
    ensures PacketWords(LastGroup(k), |LastGroup(k)|) == NopWords(k)
  {
    if k > 1 {
      LastGroupWords(k - 1);
      ConsWords(Short(1), LastGroup(k - 1));
      ConsPacket(Short(1), LastGroup(k - 1));
    }
  }

  lemma {:induction false} ConsSpan(c: Code, codes: seq<Code>, n: nat)
    requires n <= |codes|
    ensures Span([c] + codes, n + 1) == c.Size() + Span(codes, n)
  {
    var more := [c] + codes;
    if n == 0 {
      assert Span(more, 0) == 0;
    } else {
      ConsSpan(c, codes, n - 1);
      assert more[n] == codes[n - 1];
    }
  }

  lemma {:induction false} ConsPacketWords(c: Code, codes: seq<Code>, n: nat)
    requires n <= |codes|
    ensures PacketWords([c] + codes, n + 1) == CodeWords(c) + PacketWords(codes, n)
  {
    var more := [c] + codes;
    if n == 0 {
      assert PacketWords(more, 0) == [];
      assert PacketWords(more, 1) == [] + CodeWords(c);
      assert PacketWords(codes, 0) == [];
    } else {
      ConsPacketWords(c, codes, n - 1);
      assert more[n] == codes[n - 1];
      Assoc(CodeWords(c), PacketWords(codes, n - 1), CodeWords(codes[n - 1]));
    }
  }

  lemma ConsWords(c: Code, codes: seq<Code>)
    ensures PacketWords([c] + codes, |[c] + codes|) == CodeWords(c) + PacketWords(codes, |codes|)
  {
    ConsPacketWords(c, codes, |codes|);
  }

  /** A parallel 16-bit instruction before a packet that leaves room for it. */
  lemma ConsPacket(c: Code, codes: seq<Code>)
    requires IsPacket(codes) && Span(codes, |codes|) <= 3 && c.Short? && c.SizeBitOk() && Par(c.lo)
    ensures IsPacket([c] + codes) && Span([c] + codes, |[c] + codes|) == 1 + Span(codes, |codes|)
  {
    ConsSpan(c, codes, |codes|);
    var more := [c] + codes;
    assert more[|more| - 1] == codes[|codes| - 1];
    forall i | 0 <= i < |more| - 1
      ensures Par(more[i].lo)
    {
      assert i > 0 ==> more[i] == codes[i - 1];
    }
  }

  lemma FullGroupWords()
    ensures IsPacket(FULL_GROUP) && PacketWords(FULL_GROUP, 4) == [1, 1, 1, 1]
  {
  }

  lemma PaddingGroup(k: nat)
    requires k > 4
    ensures Padding(k) == [FULL_GROUP] + Padding(k - 4)
    ensures Flatten(Padding(k)) == [1, 1, 1, 1] + Flatten(Padding(k - 4))
  {
    FullGroupWords();
    FlattenAppend([FULL_GROUP], Padding(k - 4));
    FlattenOne(FULL_GROUP);
  }

  lemma MorePadding(k: nat)
    requires k > 4 && Flatten(Padding(k - 4)) == NopWords(k - 4) && AllPackets(Padding(k - 4))
    ensures Flatten(Padding(k)) == NopWords(k) && AllPackets(Padding(k))
  {
    PaddingGroup(k);
    NopWordsOfGroup(k);
    FullGroupWords();
    AppendPackets([FULL_GROUP], Padding(k - 4));
  }

  lemma NoPadding()
    ensures Flatten(Padding(0)) == NopWords(0) && AllPackets(Padding(0))
  {
  }

  lemma PaddingEnd(k: nat)
    requires 1 <= k <= 4
    ensures Flatten(Padding(k)) == NopWords(k) && AllPackets(Padding(k))
  {
    LastGroupWords(k);
    FlattenOne(LastGroup(k));
  }

  /** The groups are packets and their words are the words of the padding. */
  lemma {:induction false} PaddingWords(k: nat)
    ensures Flatten(Padding(k)) == NopWords(k)
    ensures AllPackets(Padding(k))
  {
    if k == 0 {
      NoPadding();
    } else if k <= 4 {
      PaddingEnd(k);
    } else {
      PaddingWords(k - 4);
      MorePadding(k);
    }
  }

  lemma NopWordsOfGroup(k: nat)
    requires k > 4
    ensures NopWords(k) == [1, 1, 1, 1] + NopWords(k - 4)
  {
    assert NopWords(k - 1) == [1] + NopWords(k - 2);
    assert NopWords(k - 2) == [1] + NopWords(k - 3);
    assert NopWords(k - 3) == [1] + NopWords(k - 4);
  }

  // ---------------------------------------------- what the second pass writes

  /** The packets of one item that starts at `addr`. */
  function ItemPackets(enc: EncodeFn, it: Item, addr: Addr, table: Table): seq<seq<Code>>
  {
    if it.labelName.Some? then []
    else if it.align != 0 then
      if NopsToAdd(addr, it.align) > 0 then Padding(NopsToAdd(addr, it.align)) else []
    else [CodesOf(enc, it.insts, |it.insts|, Known(table))]
  }

  /** The packets of each item. */
  function Parts(enc: EncodeFn, items: seq<Item>, table: Table, m: Mem): (parts: seq<seq<seq<Code>>>)
    ensures |parts| == |items|
    ensures forall i: nat :: i < |items| ==>
      parts[i] == ItemPackets(enc, items[i], AddressOf(enc, items, i, table, m), table)
  {
    seq(|items|, i requires 0 <= i < |items| =>
      ItemPackets(enc, items[i], AddressOf(enc, items, i, table, m), table))
  }

  /** The packets of the first `n` items, in one list. */
  function Joined(parts: seq<seq<seq<Code>>>, n: nat): seq<seq<Code>>
    requires n <= |parts|
  {
    if n == 0 then [] else Joined(parts, n - 1) + parts[n - 1]
  }

  /** The memory holds the words `ws` and is ready for the next one. */
  ghost predicate Written(m: Mem, ws: seq<bv16>) {
    |ws| < WORD_SPAN && m.addr == |ws| && m.cells[..|ws|] == ws
  }

  lemma PutWrites(m: Mem, ws: seq<bv16>, w: bv16)
    requires Written(m, ws) && |ws| + 1 < WORD_SPAN
    ensures Written(Put(m, w), ws + [w])
  {
    assert Put(m, w).cells[..|ws| + 1] == m.cells[..|ws|] + [w];
  }

  lemma PutCodeWrites(m: Mem, ws: seq<bv16>, c: Code)
    requires Written(m, ws) && |ws| + c.Size() < WORD_SPAN
    ensures PutCode(m, c).Good? && Written(PutCode(m, c).value, ws + CodeWords(c))
  {
    if c.Short? {
      PutWrites(m, ws, c.lo);
    } else {
      assert PutCode(m, c).value.cells[..|ws| + 2] == m.cells[..|ws|] + [c.lo, c.hi];
    }
  }

  lemma {:induction false} PutCodesWrite(m: Mem, ws: seq<bv16>, codes: seq<Code>, n: nat)
    requires n <= |codes| && Written(m, ws) && |ws| + Span(codes, n) < WORD_SPAN
    ensures PutCodes(m, codes, n).Good? && Written(PutCodes(m, codes, n).value, ws + PacketWords(codes, n))
  {
    if n == 0 {
      assert ws + [] == ws;
    } else {
      PutCodesWrite(m, ws, codes, n - 1);
      PutCodeWrites(PutCodes(m, codes, n - 1).value, ws + PacketWords(codes, n - 1), codes[n - 1]);
      assert ws + PacketWords(codes, n - 1) + CodeWords(codes[n - 1]) == ws + PacketWords(codes, n);
    }
  }

  function Ones(n: nat): (ws: seq<bv16>)
    ensures |ws| == n
  {
    if n == 0 then [] else Ones(n - 1) + [1]
  }

  lemma {:induction false} PutManyWrites(m: Mem, ws: seq<bv16>, n: nat)
    requires Written(m, ws) && |ws| + n < WORD_SPAN
    ensures Written(PutMany(m, 1, n), ws + Ones(n))
  {
    if n == 0 {
      assert ws + [] == ws;
    } else {
      PutManyWrites(m, ws, n - 1);
      PutWrites(PutMany(m, 1, n - 1), ws + Ones(n - 1), 1);
      assert ws + Ones(n - 1) + [1] == ws + Ones(n);
    }
  }

  lemma {:induction false} OnesShift(n: nat)
    ensures [1] + Ones(n) == Ones(n) + [1]
  {
    if n > 0 {
      OnesShift(n - 1);
      assert [1] + Ones(n) == ([1] + Ones(n - 1)) + [1];
    }
  }

  lemma {:induction false} NopWordsOnes(k: nat)
    requires k > 0
    ensures NopWords(k) == Ones(k - 1) + [0]
  {
    if k > 1 {
      NopWordsOnes(k - 1);
      OnesShift(k - 2);
      assert NopWords(k) == ([1] + Ones(k - 2)) + [0];
    }
  }

  lemma {:induction false} NopWordsLength(k: nat)
    ensures |NopWords(k)| == k
  {
    if k > 1 {
      NopWordsLength(k - 1);
    }
  }

  lemma PutNopsWrites(m: Mem, ws: seq<bv16>, nops: nat)
    requires nops > 0 && Written(m, ws) && |ws| + nops < WORD_SPAN
    ensures Written(PutNops(m, nops), ws + NopWords(nops))
  {
    PutManyWrites(m, ws, nops - 1);
    PutWrites(PutMany(m, 1, nops - 1), ws + Ones(nops - 1), 0);
    NopWordsOnes(nops);
    assert ws + Ones(nops - 1) + [0] == ws + NopWords(nops);
  }

  lemma ItemWrites(enc: EncodeFn, it: Item, table: Table, m: Mem, ws: seq<bv16>)
    requires Sound(enc) && Written(m, ws) && SecondItem(enc, it, table, m).Good?
    requires |ws| + |Flatten(ItemPackets(enc, it, m.addr, table))| < WORD_SPAN
    ensures Written(SecondItem(enc, it, table, m).value, ws + Flatten(ItemPackets(enc, it, m.addr, table)))
    ensures AllPackets(ItemPackets(enc, it, m.addr, table))
  {
    if it.labelName.Some? {
      assert ws + [] == ws;
    } else if it.align != 0 {
      var nops := NopsToAdd(m.addr, it.align);
      if nops > 0 {
        PaddingWords(nops);
        NopWordsLength(nops);
        PutNopsWrites(m, ws, nops);
      } else {
        assert ws + [] == ws;
      }
    } else {
      var codes := CodesOf(enc, it.insts, |it.insts|, Known(table));
      BundleIsPacket(enc, it.insts, Known(table), m);
      BundleCodes(enc, it.insts, |it.insts|, Known(table), m);
      FlattenOne(codes);
      PutCodesWrite(m, ws, codes, |codes|);
    }
  }

  lemma ItemStep(
      enc: EncodeFn, it: Item, table: Table, m: Mem, m': Mem, before: seq<seq<Code>>, packets: seq<seq<Code>>)
    requires Sound(enc) && Written(m, Flatten(before)) && Leads(enc, it, table, m, m', packets)
    requires |Flatten(before)| + |Flatten(packets)| < WORD_SPAN
    ensures Written(m', Flatten(before) + Flatten(packets))
    ensures AllPackets(packets)
  {
    ItemWrites(enc, it, table, m, Flatten(before));
  }

  /** The memories between the items. */
  function Memories(enc: EncodeFn, items: seq<Item>, n: nat, table: Table, m: Mem): (ms: seq<Mem>)
    requires n <= |items| && SecondPass(enc, items, n, table, m).Good?
    ensures |ms| == n + 1
  {
    if n == 0 then [m]
    else Memories(enc, items, n - 1, table, m) + [SecondPass(enc, items, n, table, m).value]
  }

  ghost predicate Leads(enc: EncodeFn, it: Item, table: Table, m: Mem, m': Mem, packets: seq<seq<Code>>)
  {
    SecondItem(enc, it, table, m) == Good(m') && packets == ItemPackets(enc, it, m.addr, table)
  }

  lemma {:induction false} MemoriesLead(
      enc: EncodeFn, items: seq<Item>, n: nat, table: Table, m: Mem, i: nat)
    requires i < n <= |items| && SecondPass(enc, items, n, table, m).Good?
    ensures var ms := Memories(enc, items, n, table, m);
      && SecondItem(enc, items[i], table, ms[i]) == Good(ms[i + 1])
      && ms[i].addr == AddressOf(enc, items, i, table, m)
      && ms[n] == SecondPass(enc, items, n, table, m).value && ms[0] == m
  {
    if i < n - 1 {
      MemoriesLead(enc, items, n - 1, table, m, i);
    } else {
      MemoriesEnds(enc, items, n - 1, table, m);
    }
  }

  lemma {:induction false} MemoriesEnds(enc: EncodeFn, items: seq<Item>, n: nat, table: Table, m: Mem)
    requires n <= |items| && SecondPass(enc, items, n, table, m).Good?
    ensures var ms := Memories(enc, items, n, table, m);
      ms[0] == m && ms[n] == SecondPass(enc, items, n, table, m).value
  {
    if n > 0 {
      MemoriesEnds(enc, items, n - 1, table, m);
    }
  }

  lemma {:induction false} ChainWrites(
      enc: EncodeFn, items: seq<Item>, table: Table, ms: seq<Mem>, parts: seq<seq<seq<Code>>>, n: nat)
    requires Sound(enc) && n <= |items| == |parts| && n < |ms| && ms[0].addr == 0
    requires forall i: nat :: i < n ==> Leads(enc, items[i], table, ms[i], ms[i + 1], parts[i])
    requires |Flatten(Joined(parts, n))| < WORD_SPAN
    ensures Written(ms[n], Flatten(Joined(parts, n))) && AllPackets(Joined(parts, n))
  {
    if n == 0 {
      assert ms[0].cells[..0] == [];
    } else {
      var before := Joined(parts, n - 1);
      FlattenAppend(before, parts[n - 1]);
      ChainWrites(enc, items, table, ms, parts, n - 1);
      assert Leads(enc, items[n - 1], table, ms[n - 1], ms[n - 1 + 1], parts[n - 1]);
      ChainStep(enc, items[n - 1], table, ms[n - 1], ms[n], before, parts[n - 1]);
    }
  }

  lemma ChainStep(
      enc: EncodeFn, it: Item, table: Table, m: Mem, m': Mem, before: seq<seq<Code>>, packets: seq<seq<Code>>)
    requires Sound(enc) && Leads(enc, it, table, m, m', packets)
    requires Written(m, Flatten(before)) && AllPackets(before) && |Flatten(before + packets)| < WORD_SPAN
    ensures Written(m', Flatten(before + packets)) && AllPackets(before + packets)
  {
    FlattenAppend(before, packets);
    ItemStep(enc, it, table, m, m', before, packets);
    WrittenTogether(m', before, packets);
  }

  lemma WrittenTogether(m: Mem, before: seq<seq<Code>>, packets: seq<seq<Code>>)
    requires Written(m, Flatten(before) + Flatten(packets)) && AllPackets(before) && AllPackets(packets)
    ensures Written(m, Flatten(before + packets)) && AllPackets(before + packets)
  {
    FlattenAppend(before, packets);
    AppendPackets(before, packets);
  }

  /** The second pass writes its packets one after the other. */
  lemma PassWrites(enc: EncodeFn, items: seq<Item>, n: nat, table: Table, m: Mem, parts: seq<seq<seq<Code>>>)
    requires Sound(enc) && n <= |items| && m.addr == 0
    requires SecondPass(enc, items, n, table, m).Good?
    requires parts == Parts(enc, items, table, m) && |Flatten(Joined(parts, n))| < WORD_SPAN
    ensures Written(SecondPass(enc, items, n, table, m).value, Flatten(Joined(parts, n)))
    ensures AllPackets(Joined(parts, n))
  {
    var ms := Memories(enc, items, n, table, m);
    MemoriesEnds(enc, items, n, table, m);
    forall i: nat | i < n
      ensures Leads(enc, items[i], table, ms[i], ms[i + 1], parts[i])
    {
      MemoriesLead(enc, items, n, table, m, i);
    }
    ChainWrites(enc, items, table, ms, parts, n);
  }

  lemma AppendPackets(a: seq<seq<Code>>, b: seq<seq<Code>>)
    requires AllPackets(a) && AllPackets(b)
    ensures AllPackets(a + b)
  {
  }

  // ------------------------------------------------------- reading back

  /** The words of a packet at its start. */
  lemma {:induction false} WordsInPlace(codes: seq<Code>, n: nat, k: nat)
    requires k < n <= |codes|
    ensures Span(codes, k) + codes[k].Size() <= Span(codes, n)
    ensures PacketWords(codes, n)[Span(codes, k)] == codes[k].lo
    ensures codes[k].Long? ==> PacketWords(codes, n)[Span(codes, k) + 1] == codes[k].hi
  {
    if k < n - 1 {
      WordsInPlace(codes, n - 1, k);
    }
  }

  lemma PacketInPlace(packets: seq<seq<Code>>, i: nat)
    requires i < |packets|
    ensures PacketStart(packets, i) + Span(packets[i], |packets[i]|) <= |Flatten(packets)|
    ensures Flatten(packets)[PacketStart(packets, i)..][..Span(packets[i], |packets[i]|)]
      == PacketWords(packets[i], |packets[i]|)
  {
    var rest := packets[i + 1..];
    assert packets == packets[..i] + ([packets[i]] + rest);
    FlattenAppend(packets[..i], [packets[i]] + rest);
    FlattenAppend([packets[i]], rest);
    FlattenOne(packets[i]);
  }

  /** Instruction memory, as the fetcher reads it. */
  function ImageOf(m: Mem): Addr -> bv16 {
    (a: Addr) => m.cells[a]
  }

  function QuadAt(m: Mem, a: Addr): Quad {
    Quad(m.cells[a], m.cells[Plus(a, 1)], m.cells[Plus(a, 2)], m.cells[Plus(a, 3)])
  }

  lemma QuadWord(m: Mem, a: Addr, k: nat)
    requires k < 4
    ensures QuadAt(m, a).At(k) == m.cells[Plus(a, k)]
  {
  }

  lemma WrittenAt(m: Mem, ws: seq<bv16>, j: nat)
    requires Written(m, ws) && j < |ws|
    ensures m.cells[j] == ws[j]
  {
    assert m.cells[j] == m.cells[..|ws|][j];
  }

  lemma SliceAt(ws: seq<bv16>, start: nat, n: nat, k: nat)
    requires start + n <= |ws| && k < n
    ensures ws[start..][..n][k] == ws[start + k]
  {
  }

  lemma WordOfPacket(m: Mem, packets: seq<seq<Code>>, i: nat, k: nat)
    requires Written(m, Flatten(packets)) && i < |packets| && k < Span(packets[i], |packets[i]|) <= 4
    ensures PacketStart(packets, i) < WORD_SPAN
    ensures QuadAt(m, PacketStart(packets, i)).At(k) == PacketWords(packets[i], |packets[i]|)[k]
  {
    PacketInPlace(packets, i);
    WordInPlace(m, Flatten(packets), PacketStart(packets, i), PacketWords(packets[i], |packets[i]|), k);
  }

  lemma WordInPlace(m: Mem, ws: seq<bv16>, start: nat, part: seq<bv16>, k: nat)
    requires Written(m, ws) && start + |part| <= |ws| && ws[start..][..|part|] == part && k < |part| <= 4
    ensures start < WORD_SPAN && QuadAt(m, start).At(k) == part[k]
  {
    QuadWord(m, start, k);
    WrittenAt(m, ws, start + k);
    SliceAt(ws, start, |part|, k);
  }

  lemma CodeOfPacket(m: Mem, packets: seq<seq<Code>>, i: nat, k: nat)
    requires Written(m, Flatten(packets)) && i < |packets| && Span(packets[i], |packets[i]|) <= 4
    requires k < |packets[i]|
    ensures PacketStart(packets, i) < WORD_SPAN
    ensures CodeAt(packets[i][k], QuadAt(m, PacketStart(packets, i)), Span(packets[i], k))
  {
    var codes := packets[i];
    WordsInPlace(codes, |codes|, k);
    WordOfPacket(m, packets, i, Span(codes, k));
    if codes[k].Long? {
      WordOfPacket(m, packets, i, Span(codes, k) + 1);
    }
  }

  lemma PacketHeld(m: Mem, packets: seq<seq<Code>>, i: nat)
    requires Written(m, Flatten(packets)) && i < |packets|
    requires packets[i] != [] && Span(packets[i], |packets[i]|) <= 4
    ensures PacketStart(packets, i) < WORD_SPAN
    ensures Holds(QuadAt(m, PacketStart(packets, i)), packets[i])
  {
    CodeOfPacket(m, packets, i, 0);
    forall k | 0 <= k < |packets[i]|
      ensures CodeAt(packets[i][k], QuadAt(m, PacketStart(packets, i)), Span(packets[i], k))
    {
      CodeOfPacket(m, packets, i, k);
    }
  }

  lemma DecodesHeld(codes: seq<Code>, q: Quad, b: Bundle)
    requires IsPacket(codes) && Holds(q, codes) && b == Decode(q)
    ensures Decodes(b, codes) && b.len == Span(codes, |codes|)
  {
    DecodeInvertsBundling(codes, q);
  }

  lemma DecodesAt(packets: seq<seq<Code>>, i: nat, q: Quad, b: Bundle)
    requires i < |packets| && IsPacket(packets[i]) && Holds(q, packets[i]) && b == Decode(q)
    ensures Decodes(b, packets[i])
    ensures PacketStart(packets, i + 1) == PacketStart(packets, i) + b.len
  {
    DecodesHeld(packets[i], q, b);
    NextStart(packets, i);
  }

  // ----------------------------------------------------- the round trip

  /** The program assembles, and its image is smaller than the address space. */
  ghost predicate Assembles(enc: EncodeFn, items: seq<Item>, data: seq<Datum>) {
    && Sound(enc)
    && GenOpcodes(enc, items, data).Good?
    && |Flatten(Packets(enc, items, data))| < WORD_SPAN
  }

  /** All packets of the image: bundles and padding groups, in order. */
  function Packets(enc: EncodeFn, items: seq<Item>, data: seq<Datum>): seq<seq<Code>>
    requires GenOpcodes(enc, items, data).Good?
  {
    Joined(PartsOf(enc, items, data), |items|)
  }

  function PartsOf(enc: EncodeFn, items: seq<Item>, data: seq<Datum>): (parts: seq<seq<seq<Code>>>)
    requires GenOpcodes(enc, items, data).Good?
    ensures |parts| == |items|
  {
    Parts(enc, items, GenOpcodes(enc, items, data).value.table, SecondStart(enc, items, data))
  }

  /** The position of an item's first packet in that list. */
  function PacketOf(parts: seq<seq<seq<Code>>>, k: nat): nat
    requires k <= |parts|
  {
    |Joined(parts, k)|
  }

  lemma PrefixTransitive<T>(a: seq<T>, b: seq<T>, c: seq<T>)
    requires a <= b && b <= c
    ensures a <= c
  {
  }

  lemma {:induction false} JoinedPrefix(parts: seq<seq<seq<Code>>>, k: nat, n: nat)
    requires k <= n <= |parts|
    ensures Joined(parts, k) <= Joined(parts, n)
  {
    if k < n {
      JoinedPrefix(parts, k, n - 1);
      PrefixTransitive(Joined(parts, k), Joined(parts, n - 1), Joined(parts, n));
    }
  }

  lemma PrefixStarts(a: seq<seq<Code>>, b: seq<seq<Code>>)
    requires a <= b
    ensures Flatten(a) <= Flatten(b) && PacketStart(b, |a|) == |Flatten(a)|
  {
    assert b == a + b[|a|..];
    FlattenAppend(a, b[|a|..]);
  }

  /** Every packet of the image decodes to its instructions, all bits of each and in order, and leads
      to the next packet; the last one leads to the end of the image. */
  lemma ImageDecodes(enc: EncodeFn, items: seq<Item>, data: seq<Datum>, i: nat)
    requires Assembles(enc, items, data) && i < |Packets(enc, items, data)|
    ensures var packets, m := Packets(enc, items, data), GenOpcodes(enc, items, data).value.imem;
      && PacketStart(packets, i) < WORD_SPAN
      && Decodes(Decode(QuadAt(m, PacketStart(packets, i))), packets[i])
      && PacketStart(packets, i + 1) == PacketStart(packets, i) + Decode(QuadAt(m, PacketStart(packets, i))).len
      && PacketStart(packets, 0) == 0 && PacketStart(packets, |packets|) == m.addr
  {
    var out := GenOpcodes(enc, items, data).value;
    var packets := Packets(enc, items, data);
    PassWrites(enc, items, |items|, out.table, SecondStart(enc, items, data), PartsOf(enc, items, data));
    PacketHeld(out.imem, packets, i);
    var q := QuadAt(out.imem, PacketStart(packets, i));
    DecodesAt(packets, i, q, Decode(q));
    assert packets[..0] == [] && packets[..|packets|] == packets;
  }

  lemma JoinedAt(parts: seq<seq<seq<Code>>>, k: nat, codes: seq<Code>)
    requires k < |parts| && parts[k] == [codes]
    ensures PacketOf(parts, k) < |Joined(parts, |parts|)|
    ensures Joined(parts, |parts|)[PacketOf(parts, k)] == codes
  {
    JoinedPrefix(parts, k + 1, |parts|);
    assert Joined(parts, k + 1)[PacketOf(parts, k)] == codes;
  }

  lemma ListedAt(enc: EncodeFn, items: seq<Item>, k: nat, table: Table, m: Mem, parts: seq<seq<seq<Code>>>)
    requires Sound(enc) && k <= |items| && m.addr == 0
    requires SecondPass(enc, items, |items|, table, m).Good?
    requires parts == Parts(enc, items, table, m) && |Flatten(Joined(parts, |items|))| < WORD_SPAN
    ensures SecondPass(enc, items, k, table, m).Good?
    ensures PacketOf(parts, k) <= |Joined(parts, |items|)|
    ensures PacketStart(Joined(parts, |items|), PacketOf(parts, k)) == AddressOf(enc, items, k, table, m)
  {
    JoinedPrefix(parts, k, |items|);
    PrefixStarts(Joined(parts, k), Joined(parts, |items|));
    SecondPassPrefix(enc, items, k, |items|, table, m);
    PassWrites(enc, items, k, table, m, parts);
  }

  lemma BundleAssembled(enc: EncodeFn, items: seq<Item>, k: nat, table: Table, m: Mem)
    requires Sound(enc) && k < |items| && items[k].labelName.None? && items[k].align == 0
    requires SecondPass(enc, items, |items|, table, m).Good?
    ensures |CodesOf(enc, items[k].insts, |items[k].insts|, Known(table))| == |items[k].insts|
  {
    SecondPassPrefix(enc, items, k + 1, |items|, table, m);
    var t := SecondPass(enc, items, k, table, m).value;
    BundleCodes(enc, items[k].insts, |items[k].insts|, Known(table), t);
  }

  /** A bundle is a packet of the image, at the address the assembler gave it, with one encoding for
      each of its instructions. */
  lemma BundleInImage(enc: EncodeFn, items: seq<Item>, data: seq<Datum>, k: nat)
    requires Assembles(enc, items, data) && k < |items|
    requires items[k].labelName.None? && items[k].align == 0
    ensures var packets, out, i := Packets(enc, items, data), GenOpcodes(enc, items, data).value,
                                   PacketOf(PartsOf(enc, items, data), k);
      && i < |packets|
      && packets[i] == CodesOf(enc, items[k].insts, |items[k].insts|, Known(out.table))
      && |packets[i]| == |items[k].insts|
      && PacketStart(packets, i) == AddressOf(enc, items, k, out.table, SecondStart(enc, items, data))
  {
    var out, m := GenOpcodes(enc, items, data).value, SecondStart(enc, items, data);
    var parts := PartsOf(enc, items, data);
    JoinedAt(parts, k, CodesOf(enc, items[k].insts, |items[k].insts|, Known(out.table)));
    ListedAt(enc, items, k, out.table, m, parts);
    BundleAssembled(enc, items, k, out.table, m);
  }
}

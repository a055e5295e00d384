/** The disassembler of sw/tools/asm/disasm.c: a first-match search of the instruction table. */
module Disasm {
  import opened Words
  import opened Vliwdec
  import opened Encoding

  function FieldMask(d: OpDef): bv32
    requires DefOk(d)
  {
    Placed(Mask(d.width), d.offset)
  }

  /** The bits of the first `n` operands. */
  function OperandBits(r: Row, n: nat): bv32
    requires RowOk(r) && n <= |r.defs|
  {
    if n == 0 then 0
    else
      assert DefOk(r.defs[n - 1]);
      Or(OperandBits(r, n - 1), FieldMask(r.defs[n - 1]))
  }

  /** The bits that identify the row, with the size bit of a 32-bit instruction. */
  function FixedBits(r: Row): bv32 {
    if r.wide then Or(r.pattern, 2) else r.pattern
  }

  function Not(a: bv32): bv32 {
    !a
  }

  function Without(x: bv32, bits: bv32): bv32 {
    And(x, Not(bits))
  }

  predicate MatchesRow(r: Row, x: bv32)
    requires RowOk(r)
  {
    Without(x, OperandBits(r, |r.defs|)) == FixedBits(r)
  }

  /** The parallel bit, the predicate and what follows a 16-bit instruction are looked away from. */
  function Trimmed(w: bv32): bv32 {
    var y := w & 0x3FFF_FFFE;
    if y & 2 == 2 then y else y & 0xFFFF
  }

  function FirstMatch(rows: seq<Row>, i: nat, x: bv32): (m: Option<nat>)
    requires TableOk(rows) && i <= |rows|
    ensures m.Some? ==> i <= m.value < |rows| && MatchesRow(rows[m.value], x)
    ensures m.Some? ==> forall k :: i <= k < m.value ==> !MatchesRow(rows[k], x)
    ensures m.None? ==> forall k :: i <= k < |rows| ==> !MatchesRow(rows[k], x)
    decreases |rows| - i
  {
    if i == |rows| then None
    else if MatchesRow(rows[i], x) then Some(i)
    else FirstMatch(rows, i + 1, x)
  }

  /** The loop that builds the compare mask of a row. */
  method CompareMask(r: Row) returns (mask: bv32)
    requires RowOk(r)
    ensures mask == OperandBits(r, |r.defs|)
  {
    mask := 0;
    var j := 0;
    while j < |r.defs|
      invariant 0 <= j <= |r.defs|
      invariant mask == OperandBits(r, j)
    {
      assert DefOk(r.defs[j]);
      mask := Or(mask, FieldMask(r.defs[j]));
      j := j + 1;
    }
  }

  /** disasm: the first row that agrees with the word outside its operands. */
  method Disassemble(rows: seq<Row>, w: bv32) returns (m: Option<Mnemonic>)
    requires TableOk(rows)
    ensures m.Some? <==> FirstMatch(rows, 0, Trimmed(w)).Some?
    ensures m.Some? ==> m.value == rows[FirstMatch(rows, 0, Trimmed(w)).value].mnemonic
  {
    var x := Trimmed(w);
    var i := 0;
    while i < |rows|
      invariant 0 <= i <= |rows|
      invariant FirstMatch(rows, 0, x) == FirstMatch(rows, i, x)
    {
      var mask := CompareMask(rows[i]);
      if Without(x, mask) == FixedBits(rows[i]) {
        return Some(rows[i].mnemonic);
      }
      i := i + 1;
    }
    return None;
  }

  // ------------------------------------------- what makes a row readable

  /** Operands overlap neither each other nor the fixed bits, the predicate, the parallel bit and the
      size bit; a 16-bit row has nothing above bit 15. */
  ghost predicate Apart(r: Row) {
    && RowOk(r)
    && And(r.pattern, 0xC000_0003) == 0
    && And(OperandBits(r, |r.defs|), 0xF000_0003) == 0
    && And(OperandBits(r, |r.defs|), r.pattern) == 0
    && (!r.wide ==> And(r.pattern, 0xFFFF_0000) == 0 && And(OperandBits(r, |r.defs|), 0xFFFF_0000) == 0)
    && (forall k: nat :: k < |r.defs| ==> And(FieldMask(r.defs[k]), OperandBits(r, k)) == 0)
  }

  /** A field stays within its width. */
  lemma FieldFits(d: OpDef, op: Operand, syms: Symbols)
    requires DefOk(d) && Field(d, op, syms).Some?
    ensures And(Field(d, op, syms).value, Mask(d.width)) == Field(d, op, syms).value
  {
  }

  lemma PlacedFits(f: bv32, width: bv32, offset: bv32)
    requires 1 <= width <= 16 && offset <= 31 && And(f, Mask(width)) == f
    ensures And(Placed(f, offset), Placed(Mask(width), offset)) == Placed(f, offset)
  {
  }

  lemma PieceFits(d: OpDef, op: Operand, syms: Symbols)
    requires DefOk(d) && Piece(d, op, syms).Some?
    ensures And(Piece(d, op, syms).value, FieldMask(d)) == Piece(d, op, syms).value
  {
    FieldFits(d, op, syms);
    PlacedFits(Field(d, op, syms).value, d.width, d.offset);
  }

  // -------------------------------------------------- operands in the word

  lemma InOr(a: bv32, b: bv32, f: bv32)
    ensures And(f, a) == f ==> And(f, Or(a, b)) == f
    ensures And(b, Or(a, b)) == b
  {
  }

  lemma {:induction false} FieldInOperandBits(r: Row, j: nat, n: nat)
    requires RowOk(r) && j < n <= |r.defs|
    ensures And(FieldMask(r.defs[j]), OperandBits(r, n)) == FieldMask(r.defs[j])
  {
    InOr(OperandBits(r, n - 1), FieldMask(r.defs[n - 1]), FieldMask(r.defs[j]));
    if j < n - 1 {
      FieldInOperandBits(r, j, n - 1);
    }
  }

  lemma DisjointPart(f: bv32, g: bv32, bits: bv32)
    requires And(f, bits) == 0 && And(g, bits) == g
    ensures And(f, g) == 0 && And(g, f) == 0
  {
  }

  lemma FieldsDisjoint(r: Row, j: nat, k: nat)
    requires Apart(r) && j < |r.defs| && k < |r.defs| && j != k
    ensures And(FieldMask(r.defs[j]), FieldMask(r.defs[k])) == 0
  {
    var lo, hi := if j < k then j else k, if j < k then k else j;
    FieldInOperandBits(r, lo, hi);
    DisjointPart(FieldMask(r.defs[hi]), FieldMask(r.defs[lo]), OperandBits(r, hi));
  }

  lemma PartDisjoint(piece: bv32, f: bv32, g: bv32)
    requires And(piece, f) == piece && And(f, g) == 0
    ensures And(piece, g) == 0
  {
  }

  lemma OrOutside(p: bv32, q: bv32, mask: bv32)
    requires And(q, mask) == 0
    ensures And(Or(p, q), mask) == And(p, mask)
  {
  }

  lemma OrInside(p: bv32, q: bv32, mask: bv32)
    requires And(p, mask) == 0 && And(q, mask) == q
    ensures And(Or(p, q), mask) == q
  {
  }

  ghost predicate AllOutside(pieces: seq<Option<bv32>>, n: nat, mask: bv32)
    requires n <= |pieces|
  {
    forall k: nat :: k < n && pieces[k].Some? ==> And(pieces[k].value, mask) == 0
  }

  lemma {:induction false} PutAllOutside(start: bv32, pieces: seq<Option<bv32>>, n: nat, mask: bv32)
    requires n <= |pieces| && AllOutside(pieces, n, mask) && PutAll(start, pieces, n).Some?
    ensures And(PutAll(start, pieces, n).value, mask) == And(start, mask)
  {
    if n > 0 {
      PutAllOutside(start, pieces, n - 1, mask);
      OrOutside(PutAll(start, pieces, n - 1).value, pieces[n - 1].value, mask);
    }
  }

  lemma {:induction false} PutAllInside(start: bv32, pieces: seq<Option<bv32>>, n: nat, k: nat, mask: bv32)
    requires k < n <= |pieces| && PutAll(start, pieces, n).Some? && pieces[k].Some?
    requires And(start, mask) == 0 && And(pieces[k].value, mask) == pieces[k].value
    requires forall j: nat :: j < n && j != k && pieces[j].Some? ==> And(pieces[j].value, mask) == 0
    ensures And(PutAll(start, pieces, n).value, mask) == pieces[k].value
  {
    if k == n - 1 {
      PutAllOutside(start, pieces, n - 1, mask);
      OrInside(PutAll(start, pieces, n - 1).value, pieces[n - 1].value, mask);
    } else {
      PutAllInside(start, pieces, n - 1, k, mask);
      OrOutside(PutAll(start, pieces, n - 1).value, pieces[n - 1].value, mask);
    }
  }

  lemma PieceApart(r: Row, ops: seq<Operand>, syms: Symbols, j: nat, k: nat)
    requires Apart(r) && |ops| == |r.defs| && j < |r.defs| && k < |r.defs| && j != k
    ensures Pieces(r, ops, syms)[j].Some? ==> And(Pieces(r, ops, syms)[j].value, FieldMask(r.defs[k])) == 0
  {
    if Piece(r.defs[j], ops[j], syms).Some? {
      PieceFits(r.defs[j], ops[j], syms);
      FieldsDisjoint(r, j, k);
      PartDisjoint(Piece(r.defs[j], ops[j], syms).value, FieldMask(r.defs[j]), FieldMask(r.defs[k]));
    }
  }

  lemma StartOutside(pattern: bv32, bits: bv32, f: bv32, notLast: bool)
    requires And(bits, pattern) == 0 && And(bits, 0xF000_0003) == 0 && And(f, bits) == f
    ensures And(Started(pattern, notLast), f) == 0
  {
  }

  /** In the finished pattern every operand stands alone in its field. */
  lemma BodyField(r: Row, inst: Instruction, notLast: bool, syms: Symbols, k: nat)
    requires Apart(r) && k < |inst.ops| == |r.defs| && Body(r, inst, notLast, syms).Some?
    ensures Pieces(r, inst.ops, syms)[k].Some?
    ensures And(Body(r, inst, notLast, syms).value, FieldMask(r.defs[k])) == Pieces(r, inst.ops, syms)[k].value
  {
    var pieces := Pieces(r, inst.ops, syms);
    PutAllExists(StartOf(r, notLast), pieces, |pieces|);
    PieceFits(r.defs[k], inst.ops[k], syms);
    FieldInOperandBits(r, k, |r.defs|);
    StartOutside(r.pattern, OperandBits(r, |r.defs|), FieldMask(r.defs[k]), notLast);
    forall j: nat | j < |pieces| && j != k
      ensures pieces[j].Some? ==> And(pieces[j].value, FieldMask(r.defs[k])) == 0
    {
      PieceApart(r, inst.ops, syms, j, k);
    }
    PutAllInside(StartOf(r, notLast), pieces, |pieces|, k, FieldMask(r.defs[k]));
  }

  /** Outside its operands it is the row's pattern. */
  lemma BodyFixed(r: Row, inst: Instruction, notLast: bool, syms: Symbols)
    requires Apart(r) && |inst.ops| == |r.defs| && Body(r, inst, notLast, syms).Some?
    ensures Without(Body(r, inst, notLast, syms).value, OperandBits(r, |r.defs|))
      == Without(StartOf(r, notLast), OperandBits(r, |r.defs|))
  {
    var pieces, bits := Pieces(r, inst.ops, syms), OperandBits(r, |r.defs|);
    forall j: nat | j < |pieces| && pieces[j].Some?
      ensures And(pieces[j].value, Not(bits)) == 0
    {
      PieceFits(r.defs[j], inst.ops[j], syms);
      FieldInOperandBits(r, j, |r.defs|);
      PartOfBits(pieces[j].value, FieldMask(r.defs[j]), bits);
    }
    PutAllOutside(StartOf(r, notLast), pieces, |pieces|, Not(bits));
  }

  lemma PartOfBits(piece: bv32, f: bv32, bits: bv32)
    requires And(piece, f) == piece && And(f, bits) == f
    ensures And(piece, Not(bits)) == 0
  {
  }

  // -------------------------------------------------------- reading back

  /** The 32 bits read at an instruction; a 16-bit one is followed by other words. */
  function WordOf(c: Code, next: bv16): bv32 {
    Joined(c.lo, if c.Long? then c.hi else next)
  }

  function Joined(lo: bv16, hi: bv16): bv32 {
    ((hi as bv32) << 16) | (lo as bv32)
  }

  lemma WordKeeps(p: bv32, q: bv32, wide: bool, next: bv16, mask: bv32)
    requires And(mask, 0xF000_0003) == 0 && And(q, mask) == And(p, mask) && (!wide ==> And(mask, 0xFFFF_0000) == 0)
    ensures And(WordOf(CodeFor(q, wide), next), mask) == And(p, mask)
  {
  }

  lemma PutPredKeeps(p: bv32, inst: Instruction, mask: bv32)
    requires PutPred(p, inst).Some? && And(mask, 0xF000_0003) == 0
    ensures And(PutPred(p, inst).value, mask) == And(p, mask)
  {
  }

  lemma SubMask(f: bv32, bits: bv32, cut: bv32)
    requires And(f, bits) == f && And(bits, cut) == 0
    ensures And(f, cut) == 0
  {
  }

  /** Every operand of an encoded instruction, predicated or not, can be read back from its word. */
  lemma OperandReadBack(r: Row, inst: Instruction, notLast: bool, syms: Symbols, c: Code, next: bv16, k: nat)
    requires Apart(r) && TryRow(r, inst, notLast, syms) == Emit(c) && k < |r.defs|
    ensures |inst.ops| == |r.defs| && Pieces(r, inst.ops, syms)[k].Some?
    ensures And(WordOf(c, next), FieldMask(r.defs[k])) == Pieces(r, inst.ops, syms)[k].value
  {
    MatchLength(r, inst.ops, 0);
    var p, mask := Body(r, inst, notLast, syms).value, FieldMask(r.defs[k]);
    BodyField(r, inst, notLast, syms, k);
    FieldInOperandBits(r, k, |r.defs|);
    SubMask(mask, OperandBits(r, |r.defs|), 0xF000_0003);
    if !r.wide {
      SubMask(mask, OperandBits(r, |r.defs|), 0xFFFF_0000);
    }
    PutPredKeeps(p, inst, mask);
    WordKeeps(p, PutPred(p, inst).value, Occupies32(r, inst), next, mask);
  }

  function WideText(p: bv32): bv32 {
    (p | 2) & 0x3FFF_FFFE
  }

  function NarrowText(p: bv32): bv32 {
    p & 0xFFFC
  }

  lemma WideWord(p: bv32, next: bv16)
    ensures Trimmed(WordOf(CodeFor(p, true), next)) == WideText(p)
  {
    assert WordOf(CodeFor(p, true), next) == p | 2;
  }

  lemma NarrowWord(p: bv32, next: bv16)
    ensures Trimmed(WordOf(CodeFor(p, false), next)) == NarrowText(p)
  {
  }

  lemma WideMatches(pattern: bv32, bits: bv32, p: bv32, notLast: bool)
    requires And(pattern, 0xC000_0003) == 0 && And(bits, 0xF000_0003) == 0 && And(bits, pattern) == 0
    requires Without(p, bits) == Without(Started(pattern, notLast), bits)
    ensures Without(WideText(p), bits) == Or(pattern, 2)
  {
  }

  lemma NarrowMatches(pattern: bv32, bits: bv32, p: bv32, notLast: bool)
    requires And(pattern, 0xC000_0003) == 0 && And(bits, 0xF000_0003) == 0 && And(bits, pattern) == 0
    requires And(pattern, 0xFFFF_0000) == 0 && And(bits, 0xFFFF_0000) == 0
    requires Without(p, bits) == Without(Started(pattern, notLast), bits)
    ensures Without(NarrowText(p), bits) == pattern
  {
    NarrowCommutes(p, bits);
    NarrowCommutes(Started(pattern, notLast), bits);
    NarrowStart(pattern, notLast);
    WithoutNothing(pattern, bits);
  }

  lemma NarrowCommutes(p: bv32, bits: bv32)
    ensures Without(NarrowText(p), bits) == NarrowText(Without(p, bits))
  {
  }

  lemma NarrowStart(pattern: bv32, notLast: bool)
    requires And(pattern, 0xC000_0003) == 0 && And(pattern, 0xFFFF_0000) == 0
    ensures NarrowText(Started(pattern, notLast)) == pattern
  {
  }

  lemma WithoutNothing(p: bv32, bits: bv32)
    requires And(bits, p) == 0
    ensures Without(p, bits) == p
  {
  }

  /** Without a predicate, the word is the row's outside the operands. */
  lemma WordMatches(r: Row, bits: bv32, p: bv32, notLast: bool, next: bv16)
    requires Apart(r) && bits == OperandBits(r, |r.defs|)
    requires Without(p, bits) == Without(Started(r.pattern, notLast), bits)
    ensures Without(Trimmed(WordOf(CodeFor(p, r.wide), next)), bits) == FixedBits(r)
  {
    if r.wide {
      WideWord(p, next);
      WideMatches(r.pattern, bits, p, notLast);
    } else {
      NarrowWord(p, next);
      NarrowMatches(r.pattern, bits, p, notLast);
    }
  }

  lemma PlainCode(r: Row, inst: Instruction, notLast: bool, syms: Symbols, c: Code)
    requires RowOk(r) && TryRow(r, inst, notLast, syms) == Emit(c) && inst.pred.None?
    ensures |inst.ops| == |r.defs| && Body(r, inst, notLast, syms).Some?
    ensures c == CodeFor(Body(r, inst, notLast, syms).value, r.wide)
  {
    MatchLength(r, inst.ops, 0);
  }

  /** An instruction without a predicate matches its own row. */
  lemma AssembledMatches(r: Row, inst: Instruction, notLast: bool, syms: Symbols, c: Code, next: bv16)
    requires Apart(r) && TryRow(r, inst, notLast, syms) == Emit(c) && inst.pred.None?
    ensures MatchesRow(r, Trimmed(WordOf(c, next)))
  {
    PlainCode(r, inst, notLast, syms, c);
    BodyFixed(r, inst, notLast, syms);
    WordMatches(r, OperandBits(r, |r.defs|), Body(r, inst, notLast, syms).value, notLast, next);
  }
}

/** The predicate of an instruction, in its word: bits 31..30 name it and bit 28 negates it. */
module PredicateBits {
  import opened Words
  import opened Vliwdec
  import opened Encoding
  import opened UniqueEncoding
  import opened InsnTable
  import opened Disasm
  import opened InsnWords
  import opened JumpTargets
  import Pcu

  // -------------------------------------------------------- decimal numbers

  /** The number that the digits from `i` on spell, as far as they go. */
  function Decimal(s: string, i: nat, acc: nat): nat
    decreases |s| - i
  {
    if i < |s| && '0' <= s[i] <= '9' then Decimal(s, i + 1, acc * 10 + (s[i] as int - '0' as int)) else acc
  }

  lemma TimesTen(n: nat, d: nat)
    ensures (n * 10 + d) % 4 == ((n % 4) * 10 + d) % 4
  {
  }

  lemma {:induction false} Atoi4IsDecimal(s: string, i: nat, acc: nat)
    ensures Atoi4(s, i, acc % 4) == Decimal(s, i, acc) % 4
    decreases |s| - i
  {
    if i < |s| && '0' <= s[i] <= '9' {
      var d := s[i] as int - '0' as int;
      TimesTen(acc, d);
      Atoi4IsDecimal(s, i + 1, acc * 10 + d);
    }
  }

  /** The predicate register an instruction names, modulo 4; the first one if it names none. */
  function PredNumber(inst: Instruction): nat {
    if inst.pred.None? then 0 else Decimal(inst.pred.value, 4, 0) % 4
  }

  predicate Negates(inst: Instruction) {
    inst.pred.Some? && inst.predNeg
  }

  // ------------------------------------------------------------ bits of a word

  const NEG: bv32 := 0x1000_0000
  const TOP: bv32 := 0xF000_0000

  predicate HasNeg(p: bv32) {
    And(p, NEG) != 0
  }

  function TopTwo(p: bv32): bv32 {
    p >> 30
  }

  lemma PredicatedTop(p: bv32, neg: bool, reg: bv32)
    requires reg < 4
    ensures TopTwo(Predicated(p, neg, reg)) == reg
    ensures HasNeg(Predicated(p, neg, reg)) <==> neg || HasNeg(p)
  {
  }

  lemma TopAlike(p: bv32, q: bv32)
    requires And(p, TOP) == And(q, TOP)
    ensures TopTwo(p) == TopTwo(q) && (HasNeg(p) <==> HasNeg(q))
  {
  }

  lemma StartKeepsTop(pattern: bv32, notLast: bool)
    ensures And(Started(pattern, notLast), TOP) == And(pattern, TOP)
  {
  }

  lemma PatternTop(pattern: bv32)
    requires And(pattern, 0xC000_0003) == 0
    ensures TopTwo(pattern) == 0
  {
  }

  lemma TopOfAll(bits: bv32)
    requires And(bits, 0xF000_0003) == 0
    ensures And(bits, TOP) == 0
  {
  }

  /** The top of the finished pattern is the row's. */
  lemma BodyTop(r: Row, inst: Instruction, notLast: bool, syms: Symbols)
    requires Apart(r) && |inst.ops| == |r.defs| && Body(r, inst, notLast, syms).Some?
    ensures And(Body(r, inst, notLast, syms).value, TOP) == And(r.pattern, TOP)
  {
    var pieces := Pieces(r, inst.ops, syms);
    TopOfAll(OperandBits(r, |r.defs|));
    forall j: nat | j < |pieces| && pieces[j].Some?
      ensures And(pieces[j].value, TOP) == 0
    {
      PieceFits(r.defs[j], inst.ops[j], syms);
      FieldInOperandBits(r, j, |r.defs|);
      SmallerPart(pieces[j].value, FieldMask(r.defs[j]), OperandBits(r, |r.defs|), TOP);
    }
    PutAllOutside(StartOf(r, notLast), pieces, |pieces|, TOP);
    StartKeepsTop(r.pattern, notLast);
  }

  lemma TwoBitsSmall(n: nat)
    requires n < 4
    ensures TwoBits(n) < 4
  {
  }

  lemma PutPredTop(p: bv32, inst: Instruction)
    requires PutPred(p, inst).Some? && TopTwo(p) == 0
    ensures TopTwo(PutPred(p, inst).value) == TwoBits(PredNumber(inst))
    ensures HasNeg(PutPred(p, inst).value) <==> Negates(inst) || HasNeg(p)
  {
    if inst.pred.Some? {
      Atoi4IsDecimal(inst.pred.value, 4, 0);
      TwoBitsSmall(PredNumber(inst));
      PredicatedTop(p, inst.predNeg, TwoBits(PredNumber(inst)));
    }
  }

  lemma WordKeepsTop(p: bv32, next: bv16)
    ensures And(WordOf(CodeFor(p, true), next), TOP) == And(p, TOP)
  {
  }

  /** The predicate bits of a 32-bit instruction's word. */
  lemma WordPredicate(r: Row, inst: Instruction, notLast: bool, syms: Symbols, c: Code)
    requires Apart(r) && TryRow(r, inst, notLast, syms) == Emit(c) && c.Long?
    ensures TopTwo(WordOf(c, 0)) == TwoBits(PredNumber(inst))
    ensures HasNeg(WordOf(c, 0)) <==> Negates(inst) || HasNeg(r.pattern)
  {
    MatchLength(r, inst.ops, 0);
    BodyTop(r, inst, notLast, syms);
    var p := Body(r, inst, notLast, syms).value;
    PatternTop(r.pattern);
    TopAlike(p, r.pattern);
    PutPredTop(p, inst);
    WordKeepsTop(PutPred(p, inst).value, 0);
    TopAlike(WordOf(c, 0), PutPred(p, inst).value);
  }

  // ------------------------------------------------------ what the core reads

  /** pred_tst_idx_o: the predicate register whose bit is tested. */
  function PredIndex(w: Wire): bv16 {
    w.hi >> 14
  }

  /** The index is the number `n`. */
  predicate IndexIs(w: Wire, n: nat) {
    || (n == 0 && PredIndex(w) == 0) || (n == 1 && PredIndex(w) == 1)
    || (n == 2 && PredIndex(w) == 2) || (n == 3 && PredIndex(w) == 3)
  }

  lemma TwoBitsIs(w: Wire, n: nat)
    requires n < 4 && (PredIndex(w) as bv32) == TwoBits(n)
    ensures IndexIs(w, n)
  {
  }

  lemma WirePredicate(lo: bv16, hi: bv16)
    ensures Pcu.Fields(Wire(lo, hi)).predNeg <==> HasNeg(Joined(lo, hi))
    ensures (PredIndex(Wire(lo, hi)) as bv32) == TopTwo(Joined(lo, hi))
  {
  }

  /** Every 32-bit instruction names its predicate register in bits 31..30, modulo 4, and the first one if
      it has no predicate; it is negated in bit 28 exactly if the source negates it, unless that bit is
      in the pattern already. A 16-bit instruction has no predicate and always executes. */
  lemma PredicateRead(i: nat, inst: Instruction, notLast: bool, syms: Symbols, c: Code)
    requires i < ROWS && RowOk(RowAt(i)) && TryRow(RowAt(i), inst, notLast, syms) == Emit(c)
    ensures c.Short? ==> inst.pred.None? && forall hi, bit :: Pcu.Fields(Wire(c.lo, hi)).Executes(bit)
    ensures c.Long? ==>
      var f := Pcu.Fields(WireOf(c));
      && IndexIs(WireOf(c), PredNumber(inst))
      && (f.predNeg <==> Negates(inst) || HasNeg(RowAt(i).pattern))
      && (!HasNeg(RowAt(i).pattern) ==> forall bit :: f.Executes(bit) <==> bit != Negates(inst))
  {
    RowTells(i, 0);
    EmittedBits(RowAt(i), inst, notLast, syms);
    if c.Long? {
      WordPredicate(RowAt(i), inst, notLast, syms, c);
      WirePredicate(c.lo, c.hi);
      TwoBitsIs(WireOf(c), PredNumber(inst));
    }
  }

  // ------------------------------------- the rows that have the bit themselves

  lemma LogicNeg(i: nat)
    requires 0 <= i < 15
    ensures !HasNeg(RowAt(i).pattern)
  {
  }

  lemma ArithmeticNeg(i: nat)
    requires 15 <= i < 21
    ensures !HasNeg(RowAt(i).pattern)
  {
  }

  lemma CompareNeg(i: nat)
    requires 21 <= i < 31
    ensures HasNeg(RowAt(i).pattern) <==> 27 <= i <= 30
  {
  }

  lemma LoadNeg(i: nat)
    requires 31 <= i < 47
    ensures !HasNeg(RowAt(i).pattern)
  {
  }

  lemma StoreNeg(i: nat)
    requires 47 <= i < 60
    ensures !HasNeg(RowAt(i).pattern)
  {
  }

  lemma MoveNeg(i: nat)
    requires 60 <= i < 73
    ensures !HasNeg(RowAt(i).pattern)
  {
  }

  lemma CallNeg(i: nat)
    requires 73 <= i < 89
    ensures !HasNeg(RowAt(i).pattern)
  {
  }

  /** The comparisons "greater" and "greater or equal" have bit 28 as part of what they compare. */
  lemma NegRows(i: nat)
    requires i < ROWS
    ensures HasNeg(RowAt(i).pattern) <==> 27 <= i <= 30
  {
    if i < 15 {
      LogicNeg(i);
    } else if i < 21 {
      ArithmeticNeg(i);
    } else if i < 31 {
      CompareNeg(i);
    } else if i < 47 {
      LoadNeg(i);
    } else if i < 60 {
      StoreNeg(i);
    } else if i < 73 {
      MoveNeg(i);
    } else {
      CallNeg(i);
    }
  }

  // ---------------------------------------- a comparison cannot be negated

  lemma OrAssociates(a: bv32, b: bv32, c: bv32)
    ensures Or(Or(a, b), c) == Or(a, Or(b, c))
  {
  }

  lemma OrCommutes(b: bv32, c: bv32)
    ensures Or(b, c) == Or(c, b)
  {
  }

  lemma OrSwaps(a: bv32, b: bv32, c: bv32)
    ensures Or(Or(a, b), c) == Or(Or(a, c), b)
  {
    OrAssociates(a, b, c);
    OrCommutes(b, c);
    OrAssociates(a, c, b);
  }

  lemma {:induction false} PutAllWith(start: bv32, bit: bv32, pieces: seq<Option<bv32>>, n: nat)
    requires n <= |pieces| && PutAll(start, pieces, n).Some?
    ensures PutAll(Or(start, bit), pieces, n) == Some(Or(PutAll(start, pieces, n).value, bit))
  {
    if n > 0 {
      PutAllWith(start, bit, pieces, n - 1);
      OrSwaps(PutAll(start, pieces, n - 1).value, bit, pieces[n - 1].value);
    }
  }

  lemma StartedWith(pattern: bv32, bit: bv32, notLast: bool)
    ensures Started(Or(pattern, bit), notLast) == Or(Started(pattern, notLast), bit)
  {
    StartedOr(Or(pattern, bit), notLast);
    StartedOr(pattern, notLast);
    OrSwaps(pattern, bit, 1);
  }

  lemma StartedOr(pattern: bv32, notLast: bool)
    ensures Started(pattern, notLast) == if notLast then Or(pattern, 1) else pattern
  {
  }

  lemma NegatedIs(p: bv32, reg: bv32)
    ensures Predicated(p, true, reg) == Predicated(Or(p, NEG), false, reg)
  {
  }

  /** The comparisons whose patterns differ just in bit 28. */
  predicate Opposite(i: nat, j: nat) {
    (i == 21 && j == 27) || (i == 22 && j == 29)
  }

  lemma OppositeRows(i: nat, j: nat)
    requires Opposite(i, j)
    ensures RowAt(j).pattern == Or(RowAt(i).pattern, NEG)
    ensures RowAt(i).wide && RowAt(j).wide && RowAt(i).defs == RowAt(j).defs
  {
    OppositePatterns();
  }

  lemma OppositePatterns()
    ensures Or(0x2000_0018, NEG) == 0x3000_0018 && Or(0x2400_0018, NEG) == 0x3400_0018
  {
  }

  /** A negated predicate on a comparison sets the bit that says what is compared: `cmp16eq` under it is
      `cmp16gt` under the plain predicate, and `cmp16ne` is `cmp16ge`. */
  lemma NegatedComparison(i: nat, j: nat, ops: seq<Operand>, pred: string, notLast: bool, syms: Symbols, c: Code)
    requires Opposite(i, j) && RowOk(RowAt(i)) && RowOk(RowAt(j))
    requires TryRow(RowAt(i), Instruction(Some(pred), true, RowAt(i).mnemonic, ops), notLast, syms) == Emit(c)
    ensures TryRow(RowAt(j), Instruction(Some(pred), false, RowAt(j).mnemonic, ops), notLast, syms) == Emit(c)
  {
    OppositeRows(i, j);
    SameCode(RowAt(i), RowAt(j), ops, pred, notLast, syms, c);
  }

  lemma {:induction false} MatchSame(r: Row, q: Row, ops: seq<Operand>, j: nat)
    requires r.defs == q.defs
    ensures OperandMatch(r, ops, j) == OperandMatch(q, ops, j)
    decreases |r.defs| - j
  {
    if j < |r.defs| && j < |ops| {
      MatchSame(r, q, ops, j + 1);
    }
  }

  lemma SameCode(r: Row, q: Row, ops: seq<Operand>, pred: string, notLast: bool, syms: Symbols, c: Code)
    requires RowOk(r) && RowOk(q) && r.defs == q.defs && r.wide && q.wide && q.pattern == Or(r.pattern, NEG)
    requires TryRow(r, Instruction(Some(pred), true, r.mnemonic, ops), notLast, syms) == Emit(c)
    ensures TryRow(q, Instruction(Some(pred), false, q.mnemonic, ops), notLast, syms) == Emit(c)
  {
    MatchLength(r, ops, 0);
    MatchSame(r, q, ops, 0);
    StartedWith(r.pattern, NEG, notLast);
    var pieces := Pieces(r, ops, syms);
    assert Pieces(q, ops, syms) == pieces;
    PutAllWith(StartOf(r, notLast), NEG, pieces, |ops|);
    NegatedIs(PutAll(StartOf(r, notLast), pieces, |ops|).value, TwoBits(Atoi4(pred, 4, 0)));
  }
}

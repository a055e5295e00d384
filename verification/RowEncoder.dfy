/** The loops of sw/tools/asm/asm.c over the operands of one instruction. */
module RowEncoder {
  import opened Words
  import opened Encoding

  /** operand_match. */
  method MatchOperands(r: Row, ops: seq<Operand>) returns (m: Match)
    ensures m == OperandMatch(r, ops, 0)
  {
    var j := 0;
    while j < |r.defs|
      invariant 0 <= j <= |r.defs| && j <= |ops|
      invariant OperandMatch(r, ops, 0) == OperandMatch(r, ops, j)
    {
      if j == |ops| {
        return NullOperand;
      }
      if r.defs[j].kind != ops[j].kind {
        return Differs;
      }
      j := j + 1;
    }
    return if j == |ops| then Matches else Differs;
  }

  /** The loop over the operands: each encoder ORs its field into the pattern. */
  method EncodeOperands(count: nat, encode: nat --> Option<bv32>, start: bv32, ghost pieces: seq<Option<bv32>>)
    returns (o: Option<bv32>)
    requires |pieces| == count && forall k: nat :: k < count ==> encode.requires(k) && encode(k) == pieces[k]
    ensures o == PutAll(start, pieces, count)
  {
    o := Some(start);
    var k := 0;
    while k < count
      invariant 0 <= k <= count
      invariant o == PutAll(start, pieces, k)
      invariant o.Some?
    {
      o := PutOne(o.value, encode(k));
      k := k + 1;
      if o.None? {
        StaysNone(start, pieces, k, count);
        return;
      }
    }
  }

  lemma {:induction false} StaysNone(start: bv32, pieces: seq<Option<bv32>>, k: nat, n: nat)
    requires k <= n <= |pieces| && (PutAll(start, pieces, k).None? || k == n)
    ensures PutAll(start, pieces, n) == PutAll(start, pieces, k)
  {
    if k < n {
      StaysNone(start, pieces, k, n - 1);
    }
  }

  /** The body of the search loop, up to the words that it writes. */
  method EncodeRow(r: Row, inst: Instruction, notLast: bool, syms: Symbols) returns (a: Answer)
    requires RowOk(r)
    ensures a == TryRow(r, inst, notLast, syms)
  {
    if r.mnemonic != inst.mnemonic {
      return Skip;
    }
    var m := MatchOperands(r, inst.ops);
    if m == NullOperand {
      return Crash;
    }
    if m == Differs {
      return Skip;
    }
    MatchLength(r, inst.ops, 0);
    var p := EncodePattern(r, inst, notLast, syms);
    return if p.None? then Skip else Emit(CodeFor(p.value, Occupies32(r, inst)));
  }

  method EncodePattern(r: Row, inst: Instruction, notLast: bool, syms: Symbols) returns (p: Option<bv32>)
    requires RowOk(r) && |inst.ops| == |r.defs|
    ensures p == Pattern(r, inst, notLast, syms)
  {
    p := EncodeOperands(
      |inst.ops|, k requires 0 <= k < |inst.ops| && DefOk(r.defs[k]) => Piece(r.defs[k], inst.ops[k], syms),
      StartOf(r, notLast), Pieces(r, inst.ops, syms));
    if p.Some? {
      p := PutPred(p.value, inst);
    }
  }
}

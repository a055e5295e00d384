/** The table search encodes an instruction by at most one row, and by the same row in both passes. */
module UniqueEncoding {
  import opened Words
  import opened Vliwdec
  import opened Encoding
  import opened InsnTable

  // ------------------------------------------- exactly when a row encodes

  predicate PredOk(inst: Instruction) {
    inst.pred.Some? ==> "pred" <= inst.pred.value
  }

  /** Every symbol the row wants to encode is defined. */
  ghost predicate Resolves(r: Row, inst: Instruction, syms: Symbols)
    requires |inst.ops| == |r.defs|
  {
    forall k :: 0 <= k < |r.defs| ==> Resolved(r.defs[k], inst.ops[k], syms)
  }

  lemma PatternExists(r: Row, inst: Instruction, notLast: bool, syms: Symbols)
    requires RowOk(r) && |inst.ops| == |r.defs|
    ensures Pattern(r, inst, notLast, syms).Some? <==>
      && (forall k :: 0 <= k < |r.defs| ==> Accepts(r.defs[k], inst.ops[k]))
      && Resolves(r, inst, syms) && PredOk(inst)
  {
    BodyExists(r, inst, notLast, syms);
  }

  lemma {:induction false} MatchExact(r: Row, ops: seq<Operand>, j: nat)
    requires j <= |r.defs| == |ops|
    requires forall k :: j <= k < |ops| ==> r.defs[k].kind == ops[k].kind
    ensures OperandMatch(r, ops, j) == Matches
    decreases |r.defs| - j
  {
    if j < |r.defs| {
      MatchExact(r, ops, j + 1);
    }
  }

  lemma RowEncodes(r: Row, inst: Instruction, notLast: bool, syms: Symbols)
    requires RowOk(r)
    ensures TryRow(r, inst, notLast, syms).Emit? <==> Fits(r, inst) && PredOk(inst) && Resolves(r, inst, syms)
  {
    if OperandMatch(r, inst.ops, 0) == Matches {
      MatchLength(r, inst.ops, 0);
      PatternExists(r, inst, notLast, syms);
    } else if Fits(r, inst) {
      MatchExact(r, inst.ops, 0);
    }
  }

  // ------------------------------------------------ one encoding at most

  /** The instructions two rows of the table take are apart. */
  ghost predicate Unambiguous(rows: seq<Row>) {
    && TableOk(rows)
    && forall i, j, inst :: 0 <= i < |rows| && 0 <= j < |rows| && Fits(rows[i], inst) && Fits(rows[j], inst) ==> i == j
  }

  lemma InsnsUnambiguous()
    ensures Unambiguous(Insns())
  {
    InsnsOk();
    forall i, j, inst | 0 <= i < ROWS && 0 <= j < ROWS && Fits(Insns()[i], inst) && Fits(Insns()[j], inst)
      ensures i == j
    {
      UniqueRow(i, j, inst);
    }
  }

  /** Row `i` is the one row below `n` that encodes. */
  ghost predicate OnlyAnswer(answers: seq<Answer>, n: nat, i: nat, c: Code)
    requires n <= |answers|
  {
    i < n && answers[i] == Emit(c) && forall k :: 0 <= k < n && k != i ==> answers[k].Skip?
  }

  ghost predicate AtMostOne(answers: seq<Answer>) {
    forall i, j :: 0 <= i < |answers| && 0 <= j < |answers| && answers[i].Emit? && answers[j].Emit? ==> i == j
  }

  lemma {:induction false} GatherOnce(answers: seq<Answer>, n: nat)
    requires n <= |answers| && AtMostOne(answers)
    ensures var s := Gather(answers, n);
      && (s.Crashed? <==> exists i :: 0 <= i < n && answers[i].Crash?)
      && (s.Emitted? ==>
            || (s.codes == [] && forall k :: 0 <= k < n ==> answers[k].Skip?)
            || (|s.codes| == 1 && exists i: nat :: OnlyAnswer(answers, n, i, s.codes[0])))
  {
    if n > 0 {
      GatherOnce(answers, n - 1);
      var s := Gather(answers, n - 1);
      var t := answers[n - 1];
      if s.Emitted? && s.codes == [] && t.Emit? {
        assert Gather(answers, n) == Emitted([t.code]);
        assert OnlyAnswer(answers, n, n - 1, Gather(answers, n).codes[0]);
      } else if s.Emitted? && s.codes != [] {
        var i: nat :| OnlyAnswer(answers, n - 1, i, s.codes[0]);
        assert t.Skip? ==> OnlyAnswer(answers, n, i, s.codes[0]);
      }
    }
  }

  lemma AnswersOnce(rows: seq<Row>, inst: Instruction, notLast: bool, syms: Symbols)
    requires Unambiguous(rows)
    ensures AtMostOne(Answers(rows, inst, notLast, syms))
  {
    var answers := Answers(rows, inst, notLast, syms);
    forall i, j | 0 <= i < |rows| && 0 <= j < |rows| && answers[i].Emit? && answers[j].Emit?
      ensures i == j
    {
      EmitFits(rows[i], inst, notLast, syms);
      EmitFits(rows[j], inst, notLast, syms);
    }
  }

  ghost predicate Takes(rows: seq<Row>, i: nat, inst: Instruction)
    requires TableOk(rows)
  {
    i < |rows| && Fits(rows[i], inst)
  }

  /** The search does not stop at the first row that encodes, yet it never emits two encodings: one
      exactly when a row takes the instruction and its symbols are defined. */
  lemma EncodesOnce(rows: seq<Row>, inst: Instruction, notLast: bool, syms: Symbols)
    requires Unambiguous(rows) && Encode(rows, inst, notLast, syms).Emitted?
    ensures var codes := Encode(rows, inst, notLast, syms).codes;
      && |codes| <= 1
      && (|codes| == 1 <==> exists i: nat :: Takes(rows, i, inst) && PredOk(inst) && Resolves(rows[i], inst, syms))
  {
    var answers := Answers(rows, inst, notLast, syms);
    var s := Encode(rows, inst, notLast, syms);
    AnswersOnce(rows, inst, notLast, syms);
    GatherOnce(answers, |rows|);
    if |s.codes| == 1 {
      var i: nat :| OnlyAnswer(answers, |rows|, i, s.codes[0]);
      RowEncodes(rows[i], inst, notLast, syms);
      assert Takes(rows, i, inst);
    } else {
      forall i: nat | Takes(rows, i, inst)
        ensures !(PredOk(inst) && Resolves(rows[i], inst, syms))
      {
        RowEncodes(rows[i], inst, notLast, syms);
        assert answers[i].Skip?;
      }
    }
  }

  /** The one encoding carries its size and whether another instruction follows. */
  lemma EncodedBits(rows: seq<Row>, inst: Instruction, notLast: bool, syms: Symbols)
    requires Unambiguous(rows) && Encode(rows, inst, notLast, syms).Emitted?
    requires Encode(rows, inst, notLast, syms).codes != []
    ensures var c := Encode(rows, inst, notLast, syms).codes[0];
      && c.SizeBitOk() && (Par(c.lo) <==> notLast)
      && (forall i: nat :: Takes(rows, i, inst) ==> (c.Long? <==> Occupies32(rows[i], inst)))
  {
    AnswersOnce(rows, inst, notLast, syms);
    GatherOnce(Answers(rows, inst, notLast, syms), |rows|);
    var c := Encode(rows, inst, notLast, syms).codes[0];
    var i: nat :| OnlyAnswer(Answers(rows, inst, notLast, syms), |rows|, i, c);
    EmittedBits(rows[i], inst, notLast, syms);
    EmitFits(rows[i], inst, notLast, syms);
    assert Takes(rows, i, inst);
  }

  // ------------------------------------------------ when the search crashes

  /** The operands given are fewer than the row wants, and each of them is of the kind it wants. */
  ghost predicate RunsShort(r: Row, ops: seq<Operand>, j: nat) {
    j <= |ops| < |r.defs| && forall k :: j <= k < |ops| ==> r.defs[k].kind == ops[k].kind
  }

  /** The match dereferences a null operand exactly when the list runs short of the row. */
  lemma {:induction false} NullOperandIff(r: Row, ops: seq<Operand>, j: nat)
    requires j <= |r.defs| && j <= |ops|
    ensures OperandMatch(r, ops, j) == NullOperand <==> RunsShort(r, ops, j)
    decreases |r.defs| - j
  {
    if j < |r.defs| && j < |ops| && r.defs[j].kind == ops[j].kind {
      NullOperandIff(r, ops, j + 1);
    }
  }

  lemma {:induction false} GatherCrashes(answers: seq<Answer>, n: nat)
    requires n <= |answers|
    ensures Gather(answers, n).Crashed? <==> exists i :: 0 <= i < n && answers[i].Crash?
  {
    if n > 0 {
      GatherCrashes(answers, n - 1);
    }
  }

  ghost predicate CrashesAt(rows: seq<Row>, i: nat, inst: Instruction) {
    i < |rows| && rows[i].mnemonic == inst.mnemonic && RunsShort(rows[i], inst.ops, 0)
  }

  /** The search crashes if and only if some row of the mnemonic starts with the operands given and
      wants more of them; neither symbols nor predicate nor place in the bundle matter. */
  lemma EncodeCrashesIff(rows: seq<Row>, inst: Instruction, notLast: bool, syms: Symbols)
    requires TableOk(rows)
    ensures Encode(rows, inst, notLast, syms).Crashed? <==> exists i: nat :: CrashesAt(rows, i, inst)
  {
    var answers := Answers(rows, inst, notLast, syms);
    GatherCrashes(answers, |rows|);
    forall i: nat | i < |rows|
      ensures answers[i].Crash? <==> CrashesAt(rows, i, inst)
    {
      NullOperandIff(rows[i], inst.ops, 0);
    }
    if i :| 0 <= i < |rows| && answers[i].Crash? {
      assert CrashesAt(rows, i, inst);
    }
  }

  /** For one: `add16` with one operand. */
  lemma ShortListCrashes(notLast: bool, syms: Symbols)
    requires TableOk(Insns())
    ensures Encode(Insns(), Instruction(None, false, Add16, [Operand(Reg, "acc0l", 0)]), notLast, syms).Crashed?
  {
    var inst := Instruction(None, false, Add16, [Operand(Reg, "acc0l", 0)]);
    EncodeCrashesIff(Insns(), inst, notLast, syms);
    assert Insns()[17] == ArithmeticRow(17);
    assert CrashesAt(Insns(), 17, inst);
  }

  // ------------------------------------------------ the same in both passes

  /** Whether the search crashes does not depend on the symbols. */
  lemma CrashesAlike(rows: seq<Row>, inst: Instruction, notLast: bool, syms: Symbols, syms': Symbols)
    requires TableOk(rows)
    ensures Encode(rows, inst, notLast, syms).Crashed? <==> Encode(rows, inst, notLast, syms').Crashed?
  {
    EncodeCrashesIff(rows, inst, notLast, syms);
    EncodeCrashesIff(rows, inst, notLast, syms');
  }

  /** What an instruction encodes to once the symbols are known, it encoded to before they were: by
      the same row, in as many words. */
  lemma PassesEncodeAlike(rows: seq<Row>, inst: Instruction, notLast: bool, table: Table)
    requires Unambiguous(rows)
    requires var t := Encode(rows, inst, notLast, Known(table)); t.Emitted? && t.codes != []
    ensures var s, t := Encode(rows, inst, notLast, Ignored), Encode(rows, inst, notLast, Known(table));
      s.Emitted? && |s.codes| == 1 == |t.codes| && s.codes[0].Size() == t.codes[0].Size()
  {
    var s, t := Encode(rows, inst, notLast, Ignored), Encode(rows, inst, notLast, Known(table));
    if s.Crashed? {
      CrashesAlike(rows, inst, notLast, Ignored, Known(table));
    }
    EncodesOnce(rows, inst, notLast, Ignored);
    EncodesOnce(rows, inst, notLast, Known(table));
    EncodedBits(rows, inst, notLast, Known(table));
    var i: nat :| Takes(rows, i, inst) && PredOk(inst) && Resolves(rows[i], inst, Known(table));
    assert Resolves(rows[i], inst, Ignored);
    EncodedBits(rows, inst, notLast, Ignored);
  }
}

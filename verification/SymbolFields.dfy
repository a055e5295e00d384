/** What a resolved symbol leaves in its field: the address, cut to the field's width. */
module SymbolFields {
  import opened Words
  import opened WordBits
  import opened Alignment
  import opened Encoding
  import opened InsnTable
  import opened Vliwdec
  import opened Disasm
  import opened InsnWords

  /** The low bits of a word, in a pattern. */
  function Cut(b: bv16, width: bv32): bv32
    requires 1 <= width <= 16
  {
    And(Widened(b), Mask(width))
  }

  function Widened(b: bv16): bv32 {
    b as bv32
  }

  lemma CutOne(b: bv16, bit: bool)
    ensures Cut(PushBit(b, bit), 1) == Widened(PushBit(0, bit))
  {
  }

  function Shifted(x: bv32): bv32 {
    x << 1
  }

  function WithBit(x: bv32, bit: bool): bv32 {
    x | (if bit then 1 else 0)
  }

  function Twice(x: bv32, bit: bool): bv32 {
    WithBit(Shifted(x), bit)
  }

  lemma ShiftedAnd(x: bv32, m: bv32)
    ensures And(Shifted(x), WithBit(Shifted(m), true)) == Shifted(And(x, m))
  {
  }

  lemma WithBitAnd(y: bv32, m: bv32, bit: bool)
    ensures And(WithBit(y, bit), WithBit(m, true)) == WithBit(And(y, WithBit(m, true)), bit)
  {
  }

  lemma MaskTwice(w: bv32)
    requires 2 <= w <= 16
    ensures Mask(w) == Twice(Mask(w - 1), true) && And(Mask(w - 1), 0x7FFF) == Mask(w - 1)
  {
  }

  lemma PushWidened(b: bv16, bit: bool)
    ensures And(Widened(PushBit(b, bit)), 0xFFFF) == And(Twice(Widened(b), bit), 0xFFFF)
  {
  }

  lemma ShiftedSmall(m: bv32)
    requires And(m, 0x7FFF) == m
    ensures And(Shifted(m), 0xFFFE) == Shifted(m)
  {
  }

  lemma OddSmall(x: bv32)
    requires And(x, 0xFFFE) == x
    ensures And(WithBit(x, true), 0xFFFF) == WithBit(x, true)
  {
  }

  lemma TwiceSmall(m: bv32)
    requires And(m, 0x7FFF) == m
    ensures And(Twice(m, true), 0xFFFF) == Twice(m, true)
  {
    ShiftedSmall(m);
    OddSmall(Shifted(m));
  }

  lemma TwiceAnd(x: bv32, m: bv32, bit: bool)
    ensures And(Twice(x, bit), Twice(m, true)) == Twice(And(x, m), bit)
  {
    ShiftedAnd(x, m);
    WithBitAnd(Shifted(x), Shifted(m), bit);
  }

  lemma AndAlike(x: bv32, y: bv32, m: bv32, all: bv32)
    requires And(x, all) == And(y, all) && And(m, all) == m
    ensures And(x, m) == And(y, m)
  {
  }

  lemma PushAnd(b: bv16, bit: bool, m: bv32)
    requires And(m, 0x7FFF) == m
    ensures And(Widened(PushBit(b, bit)), Twice(m, true)) == Twice(And(Widened(b), m), bit)
  {
    PushWidened(b, bit);
    TwiceSmall(m);
    AndAlike(Widened(PushBit(b, bit)), Twice(Widened(b), bit), Twice(m, true), 0xFFFF);
    TwiceAnd(Widened(b), m, bit);
  }

  lemma PushSmall(low: bv16, bit: bool, x: bv32, m: bv32)
    requires Widened(low) == And(x, m) && And(m, 0x7FFF) == m
    ensures Widened(PushBit(low, bit)) == Twice(And(x, m), bit)
  {
  }

  lemma CutPush(b: bv16, bit: bool, low: bv16, w: bv32)
    requires 2 <= w <= 16 && Cut(b, w - 1) == Widened(low)
    ensures Cut(PushBit(b, bit), w) == Widened(PushBit(low, bit))
  {
    MaskTwice(w);
    PushAnd(b, bit, Mask(w - 1));
    PushSmall(low, bit, Widened(b), Mask(w - 1));
  }

  lemma ToWordUnfold(n: nat)
    ensures ToWord(n) == PushBit(ToWord(n / 2), n % 2 == 1)
  {
    assert PushBit(0, false) == 0;
  }

  lemma RemainderIs(n: nat, m: nat, q: nat, r: nat)
    requires r < m && n == q * m + r
    ensures n % m == r
  {
    MulApart(m, q - n / m);
  }

  lemma ModHalves(n: nat, p: nat)
    requires p > 0
    ensures (n % (2 * p)) / 2 == (n / 2) % p && (n % (2 * p)) % 2 == n % 2
  {
    var q := (n / 2) / p;
    assert n / 2 == q * p + (n / 2) % p;
    assert n == q * (2 * p) + (2 * ((n / 2) % p) + n % 2);
    RemainderIs(n, 2 * p, q, 2 * ((n / 2) % p) + n % 2);
  }

  /** The low `k` bits are the number modulo 2^k. */
  lemma {:induction false} CutIsModulo(n: nat, k: nat, w: bv32)
    requires 1 <= k <= 16 && w as nat == k
    ensures Cut(ToWord(n), w) == Widened(ToWord(n % Pow2(k)))
    decreases k
  {
    ToWordUnfold(n);
    ToWordUnfold(n % Pow2(k));
    ModHalves(n, Pow2(k - 1));
    if k == 1 {
      CutOne(ToWord(n / 2), n % 2 == 1);
    } else {
      CutIsModulo(n / 2, k - 1, w - 1);
      CutPush(ToWord(n / 2), n % 2 == 1, ToWord((n / 2) % Pow2(k - 1)), w);
    }
  }

  lemma SymFieldCut(a: Addr, width: bv32)
    requires 1 <= width <= 16
    ensures SymField(a, width) == Cut(ToWord(a), width)
  {
  }

  lemma SymFieldIsModulo(d: OpDef, op: Operand, table: Table)
    requires DefOk(d) && d.encoder.EncSymref? && Piece(d, op, Known(table)).Some?
    ensures Lookup(table, op.name).Some?
    ensures Piece(d, op, Known(table)).value
      == Placed(Widened(ToWord(Lookup(table, op.name).value % Pow2(d.width as nat))), d.offset)
  {
    var a := Lookup(table, op.name).value;
    SymFieldCut(a, d.width);
    CutIsModulo(a, d.width as nat, d.width);
  }

  /** Every resolved symbol field holds the symbol's address, truncated to the width of the field. */
  lemma SymbolFieldHolds(i: nat, inst: Instruction, notLast: bool, table: Table, c: Code, next: bv16, k: nat)
    requires i < ROWS && RowOk(RowAt(i)) && TryRow(RowAt(i), inst, notLast, Known(table)) == Emit(c)
    requires k < |RowAt(i).defs| && RowAt(i).defs[k].encoder.EncSymref?
    ensures |inst.ops| == |RowAt(i).defs| && Lookup(table, inst.ops[k].name).Some?
    ensures var d, a := RowAt(i).defs[k], Lookup(table, inst.ops[k].name).value;
      && DefOk(d)
      && And(WordOf(c, next), FieldMask(d)) == Placed(Widened(ToWord(a % Pow2(d.width as nat))), d.offset)
  {
    OperandsReadBack(i, inst, notLast, Known(table), c, next, k);
    SymFieldIsModulo(RowAt(i).defs[k], inst.ops[k], table);
  }
}

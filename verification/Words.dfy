/** Machine words and addresses shared by the models of the AjarDSP blocks. */
module Words {

  datatype Option<+T> = None | Some(value: T)

  const WORD_SPAN := 0x1_0000

  /** A 16-bit instruction-memory or data-memory address. */
  type Addr = a: int | 0 <= a < WORD_SPAN

  /** 16-bit modular addition, as every address adder of the core does it. */
  function Plus(a: Addr, b: int): Addr {
    (a + b) % WORD_SPAN
  }

  lemma PlusPlus(a: Addr, b: int, c: int)
    ensures Plus(Plus(a, b), c) == Plus(a, b + c)
  {
  }

  lemma Assoc<T>(a: seq<T>, b: seq<T>, c: seq<T>)
    ensures (a + b) + c == a + (b + c)
  {
  }

  function Pow2(k: nat): (p: nat)
    ensures p >= 1
  {
    if k == 0 then 1 else 2 * Pow2(k - 1)
  }

  /** Four consecutive 16-bit words, lowest address first: w0 is bits 15..0 of the 64-bit bus. */
  datatype Quad = Quad(w0: bv16, w1: bv16, w2: bv16, w3: bv16) {
    function At(k: int): bv16 {
      if k <= 0 then w0 else if k == 1 then w1 else if k == 2 then w2 else w3
    }
  }

  /** The bit that says "the next instruction executes in parallel with this one". */
  predicate Par(w: bv16) {
    w & 1 == 1
  }

  /** The bit that says "this instruction occupies 32 bits". */
  predicate Wide(w: bv16) {
    w & 2 == 2
  }
}

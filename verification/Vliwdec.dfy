/** The combinational bundle decoder of rtl/verilog/vliwdec.v. */
module Vliwdec {
  import opened Words

  /** A 32-bit instruction bus; a 16-bit instruction is significant in `lo` only. */
  datatype Wire = Wire(lo: bv16, hi: bv16)

  /** One of the four decoder outputs. */
  datatype Slot = Slot(valid: bool, inst: Wire)

  datatype Bundle = Bundle(len: nat, s0: Slot, s1: Slot, s2: Slot, s3: Slot, invalidPacket: bool)

  const NO_SLOT := Slot(false, Wire(0, 0))

  /** The branch tree of the decoder, one branch for each branch of the source. */
  function Decode(q: Quad): (b: Bundle)
    ensures b.len <= 4
  {
    var s0 := Slot(true, Wire(q.w0, q.w1));
    if Par(q.w0) then
      if Wide(q.w0) then
        var s1 := Slot(true, Wire(q.w2, q.w3));
        if Par(q.w2) then
          if Wide(q.w2) then
            Bundle(0, s0, s1, NO_SLOT, NO_SLOT, true)
          else
            Bundle(4, s0, s1, Slot(true, Wire(q.w3, 0)), NO_SLOT, false)
        else
          Bundle(if Wide(q.w2) then 4 else 3, s0, s1, NO_SLOT, NO_SLOT, false)
      else
        var s1 := Slot(true, Wire(q.w1, q.w2));
        if Par(q.w1) then
          if Wide(q.w1) then
            Bundle(4, s0, s1, Slot(true, Wire(q.w3, 0)), NO_SLOT, false)
          else
            var s2 := Slot(true, Wire(q.w2, q.w3));
            if Par(q.w2) then
              Bundle(4, s0, s1, s2, Slot(true, Wire(q.w3, 0)), false)
            else
              Bundle(if Wide(q.w2) then 4 else 3, s0, s1, s2, NO_SLOT, false)
        else
          Bundle(if Wide(q.w1) then 3 else 2, s0, s1, NO_SLOT, NO_SLOT, false)
    else
      Bundle(if Wide(q.w0) then 2 else 1, s0, NO_SLOT, NO_SLOT, NO_SLOT, false)
  }

  /** An encoded instruction: one or two 16-bit words. */
  datatype Code = Short(lo: bv16) | Long(lo: bv16, hi: bv16) {
    function Size(): nat {
      if Long? then 2 else 1
    }

    /** The size bit tells the truth. */
    predicate SizeBitOk() {
      Wide(lo) == Long?
    }
  }

  /** The number of words of the first `i` instructions, which is the offset of the next one. */
  function Span(codes: seq<Code>, i: nat): (n: nat)
    requires i <= |codes|
    ensures i <= n <= 2 * i
  {
    if i == 0 then 0 else Span(codes, i - 1) + codes[i - 1].Size()
  }

  /** What can be issued together: at most 64 bits, the parallel bit set in all but the last
      instruction. The bit is not looked at in a 16-bit instruction that ends the 64 bits. */
  ghost predicate IsPacket(codes: seq<Code>) {
    && codes != []
    && Span(codes, |codes|) <= 4
    && (forall i :: 0 <= i < |codes| ==> codes[i].SizeBitOk())
    && (forall i :: 0 <= i < |codes| - 1 ==> Par(codes[i].lo))
    && (Par(codes[|codes| - 1].lo) ==> codes[|codes| - 1].Short? && Span(codes, |codes|) == 4)
  }

  /** Instruction `c` sits at offset `at` of the quad. */
  predicate CodeAt(c: Code, q: Quad, at: nat) {
    && at + c.Size() <= 4
    && q.At(at) == c.lo
    && (c.Long? ==> q.At(at + 1) == c.hi)
  }

  /** The instructions sit one after the other from the start of the quad. */
  ghost predicate Holds(q: Quad, codes: seq<Code>) {
    forall k :: 0 <= k < |codes| ==> CodeAt(codes[k], q, Span(codes, k))
  }

  function Slots(b: Bundle): seq<Slot> {
    [b.s0, b.s1, b.s2, b.s3]
  }

  /** A decoder output carries an encoded instruction: all of its significant bits. */
  predicate Carries(s: Slot, c: Code) {
    s.valid && s.inst.lo == c.lo && (c.Long? ==> s.inst.hi == c.hi)
  }

  /** The decoder found exactly the instructions `codes`, in order. */
  ghost predicate Decodes(b: Bundle, codes: seq<Code>) {
    && |codes| <= 4
    && !b.invalidPacket
    && b.len == Span(codes, |codes|)
    && (forall i :: 0 <= i < |codes| ==> Carries(Slots(b)[i], codes[i]))
    && (forall i :: |codes| <= i < 4 ==> !Slots(b)[i].valid)
  }

  lemma Decode1(c0: Code, q: Quad)
    requires CodeAt(c0, q, 0) && c0.SizeBitOk() && !Par(c0.lo)
    ensures var b := Decode(q);
      b.len == c0.Size() && !b.invalidPacket && Carries(b.s0, c0) && !b.s1.valid && !b.s2.valid && !b.s3.valid
  {
  }

  lemma Decode2(c0: Code, c1: Code, q: Quad)
    requires CodeAt(c0, q, 0) && c0.SizeBitOk() && Par(c0.lo)
    requires CodeAt(c1, q, c0.Size()) && c1.SizeBitOk() && !Par(c1.lo)
    ensures var b := Decode(q);
      && b.len == c0.Size() + c1.Size() && !b.invalidPacket
      && Carries(b.s0, c0) && Carries(b.s1, c1) && !b.s2.valid && !b.s3.valid
  {
  }

  lemma Decode3(c0: Code, c1: Code, c2: Code, q: Quad)
    requires CodeAt(c0, q, 0) && c0.SizeBitOk() && Par(c0.lo)
    requires CodeAt(c1, q, c0.Size()) && c1.SizeBitOk() && Par(c1.lo)
    requires CodeAt(c2, q, c0.Size() + c1.Size()) && c2.SizeBitOk()
    requires Par(c2.lo) ==> c2.Short? && c0.Size() + c1.Size() == 3
    ensures var b := Decode(q);
      && b.len == c0.Size() + c1.Size() + c2.Size() && !b.invalidPacket
      && Carries(b.s0, c0) && Carries(b.s1, c1) && Carries(b.s2, c2) && !b.s3.valid
  {
  }

  lemma Decode4(c0: Code, c1: Code, c2: Code, c3: Code, q: Quad)
    requires c0.Short? && c1.Short? && c2.Short? && c3.Short?
    requires CodeAt(c0, q, 0) && c0.SizeBitOk() && Par(c0.lo)
    requires CodeAt(c1, q, 1) && c1.SizeBitOk() && Par(c1.lo)
    requires CodeAt(c2, q, 2) && c2.SizeBitOk() && Par(c2.lo)
    requires CodeAt(c3, q, 3)
    ensures var b := Decode(q);
      && b.len == 4 && !b.invalidPacket
      && Carries(b.s0, c0) && Carries(b.s1, c1) && Carries(b.s2, c2) && Carries(b.s3, c3)
  {
  }

  /** Decoding inverts bundling: whatever follows the packet in memory, the decoder returns its
      instructions in order and its length. */
  lemma DecodeInvertsBundling(codes: seq<Code>, q: Quad)
    requires IsPacket(codes) && Holds(q, codes)
    ensures Decodes(Decode(q), codes)
  {
    var n := |codes|;
    assert CodeAt(codes[0], q, Span(codes, 0));
    if n == 1 {
      assert Span(codes, 1) == codes[0].Size();
      Decode1(codes[0], q);
    } else {
      assert CodeAt(codes[1], q, Span(codes, 1));
      if n == 2 {
        Decode2(codes[0], codes[1], q);
      } else {
        assert CodeAt(codes[2], q, Span(codes, 2));
        if n == 3 {
          Decode3(codes[0], codes[1], codes[2], q);
        } else {
          assert CodeAt(codes[3], q, Span(codes, 3));
          Decode4(codes[0], codes[1], codes[2], codes[3], q);
        }
      }
    }
  }
}

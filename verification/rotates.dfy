/** The accumulator rotates RLCA, RLA, RRCA and RRA, and the flag
    executors CCF, SCF and CPL of cpu/executors.go. None of them reads
    memory or an operand. */
module Rotates {
  import opened Bytes
  import opened Registers
  import opened CpuState

  // ---------------------------------------------------------------------------
  // The four rotations of a byte

  /** RLCA's value: `carry := a << 1; carry | carry >> 7`. The shifted value
      has already lost bit 7, so bit 0 of the result is old bit 6, not old
      bit 7. */
  function RlcaByte(a: bv8): (v: bv8)
    ensures forall i: bv8 :: 0 < i < 8 ==> (Bit(v, i) <==> Bit(a, i - 1))
    ensures Bit(v, 0) <==> Bit(a, 6)
  {
    ShiftedLeft(a, (a << 1) | ((a << 1) >> 7));
    (a << 1) | ((a << 1) >> 7)
  }

  /** RRCA's value: `carry := a >> 1; carry | carry << 7`. The shifted value
      has lost bit 0, so bit 7 of the result is old bit 1, not old bit 0. */
  function RrcaByte(a: bv8): (v: bv8)
    ensures forall i: bv8 :: i < 7 ==> (Bit(v, i) <==> Bit(a, i + 1))
    ensures Bit(v, 7) <==> Bit(a, 1)
  {
    ShiftedRight(a, (a >> 1) | ((a >> 1) << 7));
    (a >> 1) | ((a >> 1) << 7)
  }

  /** RLA's value: shift left, then flip bit 0 in when the carry is set. */
  function RlaByte(a: bv8, carry: bool): (v: bv8)
    ensures forall i: bv8 :: 0 < i < 8 ==> (Bit(v, i) <==> Bit(a, i - 1))
    ensures Bit(v, 0) <==> carry
  {
    ShiftedLeft(a, if carry then (a << 1) ^ 0x01 else a << 1);
    if carry then (a << 1) ^ 0x01 else a << 1
  }

  /** RRA's value: shift right, then flip bit 7 in when the carry is set. */
  function RraByte(a: bv8, carry: bool): (v: bv8)
    ensures forall i: bv8 :: i < 7 ==> (Bit(v, i) <==> Bit(a, i + 1))
    ensures Bit(v, 7) <==> carry
  {
    ShiftedRight(a, if carry then (a >> 1) ^ 0x80 else a >> 1);
    if carry then (a >> 1) ^ 0x80 else a >> 1
  }

  /** Bits 7..1 of v are bits 6..0 of a. */
  lemma ShiftedLeft(a: bv8, v: bv8)
    requires v & 0xFE == a << 1
    ensures forall i: bv8 :: 0 < i < 8 ==> (Bit(v, i) <==> Bit(a, i - 1))
  {
    forall i: bv8 | 0 < i < 8
      ensures Bit(v, i) <==> Bit(a, i - 1)
    {
      if i < 4 {
        assert i == 1 || i == 2 || i == 3;
      } else {
        assert i == 4 || i == 5 || i == 6 || i == 7;
      }
    }
  }

  /** Bits 6..0 of v are bits 7..1 of a. */
  lemma ShiftedRight(a: bv8, v: bv8)
    requires v & 0x7F == a >> 1
    ensures forall i: bv8 :: i < 7 ==> (Bit(v, i) <==> Bit(a, i + 1))
  {
    forall i: bv8 | i < 7
      ensures Bit(v, i) <==> Bit(a, i + 1)
    {
      if i < 4 {
        assert i == 0 || i == 1 || i == 2 || i == 3;
      } else {
        assert i == 4 || i == 5 || i == 6;
      }
    }
  }

  /** Rotating left through the carry and then right through the carry
      that came out gives back the byte and the carry. */
  lemma RotateThroughCarryInverse(a: bv8, carry: bool)
    ensures RraByte(RlaByte(a, carry), Bit(a, 7)) == a
    ensures Bit(RlaByte(a, carry), 0) == carry
  {
    var v := RlaByte(a, carry);
    var w := RraByte(v, Bit(a, 7));
    forall i: bv8 | i < 8
      ensures Bit(w, i) == Bit(a, i)
    {
    }
    SameBits(w, a);
  }

  /** Rotating right through the carry and then left through the carry
      that came out gives back the byte and the carry. */
  lemma RotateBackThroughCarry(a: bv8, carry: bool)
    ensures RlaByte(RraByte(a, carry), Bit(a, 0)) == a
    ensures Bit(RraByte(a, carry), 7) == carry
  {
    var v := RraByte(a, carry);
    var w := RlaByte(v, Bit(a, 0));
    forall i: bv8 | i < 8
      ensures Bit(w, i) == Bit(a, i)
    {
    }
    SameBits(w, a);
  }

  /** Bytes that agree on all eight bits are equal. */
  lemma SameBits(x: bv8, y: bv8)
    requires forall i: bv8 :: i < 8 ==> Bit(x, i) == Bit(y, i)
    ensures x == y
  {
    assert Bit(x, 0) == Bit(y, 0) && Bit(x, 1) == Bit(y, 1);
    assert Bit(x, 2) == Bit(y, 2) && Bit(x, 3) == Bit(y, 3);
    assert Bit(x, 4) == Bit(y, 4) && Bit(x, 5) == Bit(y, 5);
    assert Bit(x, 6) == Bit(y, 6) && Bit(x, 7) == Bit(y, 7);
  }

  /** RLCA is not the rotate it is documented as: 0x80 comes out as 0x00
      with C clear, where a rotation would give 0x01 with C set. */
  lemma RlcaDropsBitSeven()
    ensures RlcaByte(0x80) == 0x00 && (0x80 as bv8 << 1) == 0
  {
  }

  /** RRCA likewise: 0x01 comes out as 0x00 with C clear, where a rotation
      would give 0x80 with C set. */
  lemma RrcaDropsBitZero()
    ensures RrcaByte(0x01) == 0x00 && (0x01 as bv8 >> 1) == 0
  {
  }

  // ---------------------------------------------------------------------------
  // The executors

  /** RLCA: A := RlcaByte(A); Z, N and H cleared; C set exactly when the
      shifted value `A << 1` is nonzero, that is when any of bits 6..0 of A
      is set. */
  function RLCA(m: Machine): (r: Machine)
    ensures OnlyRegs(r, m, {A, F})
    ensures r.regs.Get(A) == RlcaByte(m.regs.Get(A))
    ensures FlagsAre(r.regs, m.regs, false, false, false, m.regs.Get(A) & 0x7F != 0)
  {
    var carry := m.regs.Get(A) << 1;
    m.(regs := m.regs.Set(A, RlcaByte(m.regs.Get(A))).WithFlags(false, false, false, carry != 0))
  }

  /** RLA: A rotates left through the carry: old bit 7 goes to C, old C to
      bit 0. Z, N and H are cleared. */
  function RLA(m: Machine): (r: Machine)
    ensures OnlyRegs(r, m, {A, F})
    ensures r.regs.Get(A) == RlaByte(m.regs.Get(A), m.regs.Carry())
    ensures FlagsAre(r.regs, m.regs, false, false, false, Bit(m.regs.Get(A), 7))
  {
    var lsBit := m.regs.Get(A) & 0x80 == 0x80;
    var rotated := RlaByte(m.regs.Get(A), m.regs.CarryBit() != 0);
    m.(regs := m.regs.Set(A, rotated).WithFlags(false, false, false, lsBit))
  }

  /** RRCA: A := RrcaByte(A); Z, N and H cleared; C set exactly when
      `A >> 1` is nonzero, that is when any of bits 7..1 of A is set. */
  function RRCA(m: Machine): (r: Machine)
    ensures OnlyRegs(r, m, {A, F})
    ensures r.regs.Get(A) == RrcaByte(m.regs.Get(A))
    ensures FlagsAre(r.regs, m.regs, false, false, false, m.regs.Get(A) & 0xFE != 0)
  {
    var carry := m.regs.Get(A) >> 1;
    m.(regs := m.regs.Set(A, RrcaByte(m.regs.Get(A))).WithFlags(false, false, false, carry != 0))
  }

  /** RRA: A rotates right through the carry: old bit 0 goes to C, old C to
      bit 7. Z, N and H are cleared. */
  function RRA(m: Machine): (r: Machine)
    ensures OnlyRegs(r, m, {A, F})
    ensures r.regs.Get(A) == RraByte(m.regs.Get(A), m.regs.Carry())
    ensures FlagsAre(r.regs, m.regs, false, false, false, Bit(m.regs.Get(A), 0))
  {
    var msBit := m.regs.Get(A) & 0x01 == 0x01;
    var rotated := RraByte(m.regs.Get(A), m.regs.CarryBit() != 0);
    m.(regs := m.regs.Set(A, rotated).WithFlags(false, false, false, msBit))
  }

  /** RRA undoes RLA: A and the carry flag come back. */
  lemma RraUndoesRla(m: Machine)
    ensures RRA(RLA(m)).regs.Get(A) == m.regs.Get(A)
    ensures RRA(RLA(m)).regs.Carry() == m.regs.Carry()
  {
    RotateThroughCarryInverse(m.regs.Get(A), m.regs.Carry());
  }

  /** RLA undoes RRA: A and the carry flag come back. */
  lemma RlaUndoesRra(m: Machine)
    ensures RLA(RRA(m)).regs.Get(A) == m.regs.Get(A)
    ensures RLA(RRA(m)).regs.Carry() == m.regs.Carry()
  {
    RotateBackThroughCarry(m.regs.Get(A), m.regs.Carry());
  }

  // ---------------------------------------------------------------------------
  // Flag executors

  /** CCF: complement C, clear N and H, keep Z. */
  function CCF(m: Machine): (r: Machine)
    ensures OnlyRegs(r, m, {F})
    ensures FlagsAre(r.regs, m.regs, m.regs.Zero(), false, false, !m.regs.Carry())
  {
    var s1 := m.regs.WithCarry(m.regs.CarryBit() == 0);
    m.(regs := s1.WithSubtract(false).WithHalfCarry(false))
  }

  /** SCF: set C, clear N and H, keep Z. */
  function SCF(m: Machine): (r: Machine)
    ensures OnlyRegs(r, m, {F})
    ensures FlagsAre(r.regs, m.regs, m.regs.Zero(), false, false, true)
  {
    m.(regs := m.regs.WithSubtract(false).WithHalfCarry(false).WithCarry(true))
  }

  /** CPL: A := ~A; set N and H, keep Z and C. */
  function CPL(m: Machine): (r: Machine)
    ensures OnlyRegs(r, m, {A, F})
    ensures forall i: bv8 :: i < 8 ==> (Bit(r.regs.Get(A), i) <==> !Bit(m.regs.Get(A), i))
    ensures FlagsAre(r.regs, m.regs, m.regs.Zero(), true, true, m.regs.Carry())
  {
    m.(regs := m.regs.Set(A, !m.regs.Get(A)).WithSubtract(true).WithHalfCarry(true))
  }

  /** CCF twice restores C; CPL twice restores A. */
  lemma ComplementTwice(m: Machine)
    ensures CCF(CCF(m)).regs.Carry() == m.regs.Carry()
    ensures CPL(CPL(m)).regs.Get(A) == m.regs.Get(A)
  {
  }
}

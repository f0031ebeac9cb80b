/** Laws that relate the arithmetic executors to one another: ADC and SBC
    with the carry clear are ADD and SUB, CP sets the flags SUB would,
    increments and decrements undo each other, and an addition is undone by
    the subtraction of the same operand. The second half exhibits, on
    concrete bytes, where the executors' flag tests depart from the carries
    and borrows they stand for. */
module AluLaws {
  import opened Bytes
  import opened Registers
  import opened CpuState
  import opened Alu8
  import opened Alu16

  // ---------------------------------------------------------------------------
  // Byte-level laws

  /** INC sets H exactly when the old low nibble was 0xF, DEC exactly when it
      was 0. */
  lemma IncDecHalfCarry(x: bv8)
    ensures AddHalfCarries(x, 1, 0) <==> x & 0xF == 0xF
    ensures SubHalfBorrows(x, 1, 0) <==> x & 0xF == 0
  {
  }

  /** The reference carry in integer terms: C exactly when x + y + c exceeds
      255. */
  lemma AddCarryInIntegers(x: bv8, y: bv8, c: bv8)
    requires c <= 1
    ensures AddCarries(x, y, c) <==> x as int + y as int + c as int > 255
  {
    WidenedSum(x, y, c);
  }

  /** A sum of three bytes does not overflow a word. */
  lemma WidenedSum(x: bv8, y: bv8, c: bv8)
    requires c <= 1
    ensures (x as bv16 + y as bv16 + c as bv16) as int == x as int + y as int + c as int
  {
  }

  /** The reference borrow and difference in integer terms: C exactly when
      y + c exceeds x, and adding y and c back to the byte gives x. */
  lemma SubInIntegers(x: bv8, y: bv8, c: bv8)
    requires c <= 1
    ensures SubBorrows(x, y, c) <==> y as int + c as int > x as int
    ensures SubHalfBorrows(x, y, c) <==> (y & 0xF) as int + c as int > (x & 0xF) as int
  {
  }

  /** DEC's value undoes INC's, whatever carries either keeps. */
  lemma DecOutcomeUndoesInc(x: bv8, cy1: bool, cy2: bool)
    ensures DecOutcome(IncOutcome(x, cy1).value, cy2).value == x
  {
  }

  /** SUB's value undoes ADD's. */
  lemma SubOutcomeUndoesAdd(x: bv8, y: bv8)
    ensures SubOutcome(AddOutcome(x, y).value, y).value == x
  {
  }

  /** Subtracting y from the sum x + y borrows exactly when the addition
      carried. */
  lemma BorrowUndoesCarry(x: bv8, y: bv8)
    ensures SubBorrows(SumByte(x, y, 0), y, 0) == AddCarries(x, y, 0)
  {
    assert SumByte(x, y, 0) == x + y;
    AddCarryTest(x, y);
  }

  /** With the carry clear, ADC (either form) and ADD compute the same
      outcome. */
  lemma AdcWithoutCarryIsAdd(x: bv8, y: bv8)
    ensures AdcOutcome(x, y, 0) == AddOutcome(x, y)
    ensures AdcWrapOutcome(x, y, 0) == AddOutcome(x, y)
  {
  }

  /** With the carry clear, SBCrr's and SBCraa's outcome is SUB's. */
  lemma SbcWrapWithoutBorrowIsSub(x: bv8, y: bv8)
    ensures SbcWrapOutcome(x, y, 0) == SubOutcome(x, y)
  {
  }

  /** CPr's outcome is SUB's, although it tests the carry as x < y. */
  lemma CompareIsSubtraction(x: bv8, y: bv8)
    ensures CpOutcome(x, y) == SubOutcome(x, y)
  {
  }

  // ---------------------------------------------------------------------------
  // Executor-level laws

  /** ADCrr with the carry clear is ADDrr. */
  lemma AdcrrWithoutCarry(m: Machine, dst: ByteReg, src: ByteReg)
    requires !m.regs.Carry()
    ensures ADCrr(m, dst, src) == ADDrr(m, dst, src)
  {
    AdcWithoutCarryIsAdd(m.regs.Get(dst), m.regs.Get(src));
  }

  /** SBCraa with the carry clear is SUBaa on A. */
  lemma SbcraaWithoutBorrow(m: Machine, hi: Reg8, lo: Reg8)
    requires !m.regs.Carry()
    ensures SBCraa(m, A, hi, lo) == SUBaa(m, hi, lo)
  {
    SbcWrapWithoutBorrowIsSub(m.regs.Get(A), At(m, hi, lo));
  }

  /** CPaa leaves in F exactly what SUBaa leaves there. */
  lemma CompareSetsSubtractFlags(m: Machine, hi: Reg8, lo: Reg8)
    ensures CPaa(m, hi, lo).regs.f() == SUBaa(m, hi, lo).regs.f()
  {
  }

  /** DECr undoes INCr, and the carry survives both. */
  lemma DecUndoesInc(m: Machine, reg: ByteReg)
    ensures DECr(INCr(m, reg), reg).regs.Get(reg) == m.regs.Get(reg)
    ensures DECr(INCr(m, reg), reg).regs.Carry() == m.regs.Carry()
  {
    DecOutcomeUndoesInc(m.regs.Get(reg), m.regs.Carry(), INCr(m, reg).regs.Carry());
  }

  /** INCr undoes DECr. */
  lemma IncUndoesDec(m: Machine, reg: ByteReg)
    ensures INCr(DECr(m, reg), reg).regs.Get(reg) == m.regs.Get(reg)
  {
  }

  /** XOR A with itself clears A and sets Z. */
  lemma XorSelfClears(m: Machine)
    ensures XORr(m, A).regs.Get(A) == 0 && XORr(m, A).regs.Zero()
  {
  }

  /** SUBaa undoes ADDraa into A, as long as the address registers are not
      the ones ADDraa writes; its borrow is the addition's carry. */
  lemma SubUndoesAdd(m: Machine, hi: Reg8, lo: Reg8)
    requires hi !in {A, F} && lo !in {A, F}
    ensures SUBaa(ADDraa(m, A, hi, lo), hi, lo).regs.Get(A) == m.regs.Get(A)
    ensures SUBaa(ADDraa(m, A, hi, lo), hi, lo).regs.Carry() == ADDraa(m, A, hi, lo).regs.Carry()
  {
    var y := At(m, hi, lo);
    var r := ADDraa(m, A, hi, lo);
    assert At(r, hi, lo) == y;
    SubOutcomeUndoesAdd(m.regs.Get(A), y);
    BorrowUndoesCarry(m.regs.Get(A), y);
  }

  /** DECrr undoes INCrr on a register pair. */
  lemma DecrrUndoesIncrr(m: Machine, hi: Reg8, lo: Reg8)
    requires hi != lo
    ensures DECrr(INCrr(m, hi, lo), hi, lo).regs.Pair(hi, lo) == m.regs.Pair(hi, lo)
  {
    var w := m.regs.Pair(hi, lo);
    WordSumValue(w, 1);
    WordSumValue(DECrr(INCrr(m, hi, lo), hi, lo).regs.Pair(hi, lo), 1);
  }

  /** DECSP and INCSP undo each other. */
  lemma StackPointerStepsCancel(m: Machine)
    ensures DECSP(INCSP(m)) == m
    ensures INCSP(DECSP(m)) == m
  {
    WordSumValue(m.regs.sp, 1);
    WordSumValue(m.regs.sp - 1, 1);
  }

  /** LDHLSPs puts into HL what ADDSPs puts into SP, with the same flags. */
  lemma OffsetLoadMatchesAdd(m: Machine, e: bv8)
    ensures LoadOffsetToHL(m, e).regs.HL() == AddOffsetToSP(m, e).regs.sp
    ensures LoadOffsetToHL(m, e).regs.f() == AddOffsetToSP(m, e).regs.f()
  {
    LoadOffsetSum(m, e);
    AddOffsetSum(m, e);
  }

  // ---------------------------------------------------------------------------
  // Where the flag tests depart from the carries they stand for

  /** ADCraa's wrapped comparison misses the carry of 0x01 + 0xFF + 1,
      which ADCrr's widened test sees. */
  lemma AdcWrapMissesCarry()
    ensures AddCarries(0x01, 0xFF, 1)
    ensures AdcOutcome(0x01, 0xFF, 1).c
    ensures !AdcWrapOutcome(0x01, 0xFF, 1).c
  {
  }

  /** SBCrr and SBCraa miss the borrows of 0x00 - 0xFF - 1, which SBCAn's
      signed difference sees. */
  lemma SbcWrapMissesBorrow()
    ensures SubBorrows(0x00, 0xFF, 1) && SubHalfBorrows(0x00, 0xFF, 1)
    ensures SbcWideOutcome(0x00, 0xFF, 1).c && SbcWideOutcome(0x00, 0xFF, 1).h
    ensures !SbcWrapOutcome(0x00, 0xFF, 1).c && !SbcWrapOutcome(0x00, 0xFF, 1).h
  {
  }

  /** SUBr's C is not the borrow: 0x10 - 0x01 sets it without borrowing,
      and 0x00 - 0x80 borrows without setting it. */
  lemma SubrCarryIsNotBorrow()
    ensures SubrOutcome(0x10, 0x01).c && !SubBorrows(0x10, 0x01, 0)
    ensures !SubrOutcome(0x00, 0x80).c && SubBorrows(0x00, 0x80, 0)
  {
  }

  /** SUBr writes the difference into its operand register and leaves A. */
  lemma SubrKeepsA(m: Machine, reg: ByteReg)
    requires reg != A
    ensures SUBr(m, reg).regs.Get(A) == m.regs.Get(A)
    ensures SUBr(m, reg).regs.Get(reg) == m.regs.Get(A) - m.regs.Get(reg)
  {
  }

  /** ORaa updates only Z: from F = 0x70 (N, H and C set) it keeps all
      three, where ORr with the same operand clears them. */
  lemma OraaKeepsFlags(m: Machine, hi: Reg8, lo: Reg8)
    requires m.regs.Get(F) == 0x70 && m.regs.Get(B) == At(m, hi, lo)
    ensures ORaa(m, hi, lo).regs.Subtract() && ORaa(m, hi, lo).regs.HalfCarry() && ORaa(m, hi, lo).regs.Carry()
    ensures !ORr(m, B).regs.Subtract() && !ORr(m, B).regs.HalfCarry() && !ORr(m, B).regs.Carry()
    ensures ORaa(m, hi, lo).regs.Get(A) == ORr(m, B).regs.Get(A)
  {
  }

  /** ADDHLrr's H is the carry out of bit 3, not bit 11: 0x0800 + 0x0800
      carries out of bit 11 and leaves H clear; 0x0008 + 0x0008 sets it. */
  lemma AddHLHalfCarryFromBitThree()
    ensures WordHalfCarries(0x0800, 0x0800) && !AddHLOutcome(0x0800, 0x0800).1
    ensures !WordHalfCarries(0x0008, 0x0008) && AddHLOutcome(0x0008, 0x0008).1
  {
  }
}

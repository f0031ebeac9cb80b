/** The 16-bit arithmetic executors of cpu/executors.go: additions into HL
    and SP, the signed SP offset of LD HL,SP+e, and the increments and
    decrements of register pairs and SP, none of which touch the flags. */
module Alu16 {
  import opened Wrappers
  import opened Bytes
  import opened Registers
  import opened CpuState

  /** Carry out of bit 15: the unwrapped sum of two words exceeds 16 bits. */
  predicate WordCarries(x: bv16, y: bv16) {
    x as bv32 + y as bv32 > 0xFFFF
  }

  /** Carry out of bit 11, the LR35902's half carry for 16-bit additions. */
  predicate WordHalfCarries(x: bv16, y: bv16) {
    (x & 0xFFF) + (y & 0xFFF) > 0xFFF
  }

  /** Carry out of bit 3 of a word addition (what ADDHLrr tests). */
  predicate NibbleCarries(x: bv16, y: bv16) {
    (x & 0xF) + (y & 0xF) > 0xF
  }

  /** The low 16 bits of the unwrapped sum of two words. */
  function WordSum(x: bv16, y: bv16): bv16 {
    ((x as bv32 + y as bv32) & 0xFFFF) as bv16
  }

  /** The wrapped word sum is the low half of the true sum, either way
      round. */
  lemma WordSumValue(x: bv16, y: bv16)
    ensures x + y == y + x == WordSum(x, y)
  {
  }

  /** A wrapped word sum is below its first operand exactly when it carried. */
  lemma WordSumCarry(x: bv16, y: bv16)
    ensures (x + y < x) == WordCarries(x, y)
  {
  }

  /** Bit 12 of sum ^ y ^ x is the carry out of bit 11. */
  lemma WordSumHalfCarry(x: bv16, y: bv16)
    ensures ((x + y) ^ y ^ x) & 0x1000 == 0x1000 <==> WordHalfCarries(x, y)
  {
  }

  /** Bit 4 of the sum of the low nibbles is the carry out of bit 3. */
  lemma NibbleCarry(x: bv16, y: bv16)
    ensures ((x & 0xF) + (y & 0xF)) & 0x10 == 0x10 <==> NibbleCarries(x, y)
  {
  }

  /** Write HL, then the four flags. */
  function CommitHL(m: Machine, w: bv16, z: bool, n: bool, h: bool, cy: bool): (r: Machine)
    ensures OnlyRegs(r, m, {H, L, F})
    ensures r.regs.HL() == w
    ensures r.regs.Zero() == z && r.regs.Subtract() == n
    ensures r.regs.HalfCarry() == h && r.regs.Carry() == cy
    ensures r.regs.f() & 0x0F == m.regs.f() & 0x0F
  {
    m.(regs := m.regs.SetPair(H, L, w).WithFlags(z, n, h, cy))
  }

  /** The sum and the two carries of a word addition, as ADDHLrr tests
      them: C from the wrapped comparison, H from bit 4 of the nibble sum. */
  function AddHLOutcome(hl: bv16, rr: bv16): (o: (bv16, bool, bool))
    ensures o.0 == WordSum(hl, rr)
    ensures o.1 == NibbleCarries(rr, hl) && o.2 == WordCarries(hl, rr)
  {
    WordSumValue(hl, rr);
    WordSumCarry(hl, rr);
    NibbleCarry(rr, hl);
    var sum := rr + hl;
    var hc := ((rr & 0xF) + (hl & 0xF)) & 0x10 == 0x10;
    (sum, hc, sum < hl)
  }

  /** The same as ADDHLSP tests them: H from bit 12 of result ^ SP ^ HL. */
  function AddHLSPOutcome(hl: bv16, sp: bv16): (o: (bv16, bool, bool))
    ensures o.0 == WordSum(hl, sp)
    ensures o.1 == WordHalfCarries(hl, sp) && o.2 == WordCarries(hl, sp)
  {
    WordSumValue(hl, sp);
    WordSumCarry(hl, sp);
    WordSumHalfCarry(hl, sp);
    var result := hl + sp;
    (result, (result ^ sp ^ hl) & 0x1000 == 0x1000, result < hl)
  }

  /** ADDHLrr: HL := HL + hi:lo; H from the low nibbles (bit 3, not bit 11),
      N cleared, Z kept. */
  function ADDHLrr(m: Machine, hi: Reg8, lo: Reg8): (r: Machine)
    ensures OnlyRegs(r, m, {H, L, F})
    ensures var hl, rr := m.regs.HL(), m.regs.Pair(hi, lo);
      && r.regs.HL() == WordSum(hl, rr)
      && r.regs.Zero() == m.regs.Zero() && !r.regs.Subtract()
      && r.regs.HalfCarry() == NibbleCarries(rr, hl)
      && r.regs.Carry() == WordCarries(hl, rr)
      && r.regs.f() & 0x0F == m.regs.f() & 0x0F
  {
    var o := AddHLOutcome(m.regs.HL(), m.regs.Pair(hi, lo));
    CommitHL(m, o.0, m.regs.Zero(), false, o.1, o.2)
  }

  /** ADDHLSP: HL := HL + SP; H from bit 11, N cleared, Z kept. */
  function ADDHLSP(m: Machine): (r: Machine)
    ensures OnlyRegs(r, m, {H, L, F})
    ensures var hl, sp := m.regs.HL(), m.regs.sp;
      && r.regs.HL() == WordSum(hl, sp)
      && r.regs.Zero() == m.regs.Zero() && !r.regs.Subtract()
      && r.regs.HalfCarry() == WordHalfCarries(hl, sp)
      && r.regs.Carry() == WordCarries(hl, sp)
      && r.regs.f() & 0x0F == m.regs.f() & 0x0F
  {
    var o := AddHLSPOutcome(m.regs.HL(), m.regs.sp);
    CommitHL(m, o.0, m.regs.Zero(), false, o.1, o.2)
  }

  // ---------------------------------------------------------------------------
  // SP plus a signed byte (ADDSPs, LDHLSPs)

  /** The flags of SP + e are those of the unsigned byte addition of e to the
      low byte of SP: bits 8 and 4 of sp ^ e ^ (sp + e) are its two carries. */
  lemma OffsetCarries(sp: bv16, e: bv8)
    ensures var check := sp ^ e as bv16 ^ (sp + e as bv16);
      && (check & 0x100 == 0x100) == ((sp & 0xFF) + e as bv16 > 0xFF)
      && (check & 0x10 == 0x10) == ((sp & 0xF) + (e as bv16 & 0xF) > 0xF)
  {
  }

  /** The H flag of SP + e: bit 4 of sp ^ e ^ (sp + e). */
  function OffsetHalfCarry(sp: bv16, e: bv8): (h: bool)
    ensures h == ((sp & 0xF) + (e as bv16 & 0xF) > 0xF)
  {
    OffsetCarries(sp, e);
    (sp ^ e as bv16 ^ (sp + e as bv16)) & 0x10 == 0x10
  }

  /** The C flag of SP + e: bit 8 of sp ^ e ^ (sp + e). */
  function OffsetCarry(sp: bv16, e: bv8): (cy: bool)
    ensures cy == ((sp & 0xFF) + e as bv16 > 0xFF)
  {
    OffsetCarries(sp, e);
    (sp ^ e as bv16 ^ (sp + e as bv16)) & 0x100 == 0x100
  }

  /** Write SP, then the four flags. */
  function CommitSP(m: Machine, w: bv16, z: bool, n: bool, h: bool, cy: bool): (r: Machine)
    ensures r.mem == m.mem && r.jumped == m.jumped
    ensures r.regs.sp == w && r.regs.pc == m.regs.pc
    ensures forall q :: q != F ==> r.regs.Get(q) == m.regs.Get(q)
    ensures r.regs.Zero() == z && r.regs.Subtract() == n
    ensures r.regs.HalfCarry() == h && r.regs.Carry() == cy
    ensures r.regs.f() & 0x0F == m.regs.f() & 0x0F
  {
    m.(regs := m.regs.(sp := w).WithFlags(z, n, h, cy))
  }

  /** The flags SP + e leaves: Z and N cleared, H and C the carries out of
      bits 3 and 7 of the low byte of SP plus e, the low nibble of F as in
      `o`. */
  predicate OffsetFlags(s: Regs, o: Regs, sp: bv16, e: bv8) {
    && !s.Zero() && !s.Subtract()
    && s.HalfCarry() == ((sp & 0xF) + (e as bv16 & 0xF) > 0xF)
    && s.Carry() == ((sp & 0xFF) + e as bv16 > 0xFF)
    && s.f() & 0x0F == o.f() & 0x0F
  }

  /** ADDSPs once its operand e is read: SP := SP + e (see AddOffsetSum),
      flags 00HC. */
  function AddOffsetToSP(m: Machine, e: bv8): (r: Machine)
    ensures r.mem == m.mem && r.jumped == m.jumped && r.regs.pc == m.regs.pc
    ensures forall q :: q != F ==> r.regs.Get(q) == m.regs.Get(q)
  {
    CommitSP(m, AddSigned(m.regs.sp, e), false, false,
             OffsetHalfCarry(m.regs.sp, e), OffsetCarry(m.regs.sp, e))
  }

  /** ADDSPs adds the operand read as a signed byte. */
  lemma AddOffsetSum(m: Machine, e: bv8)
    ensures AddOffsetToSP(m, e).regs.sp == m.regs.sp + SignExtend(e)
  {
  }

  /** ADDSPs sets the flags 00HC from the low byte of SP plus e. */
  lemma AddOffsetFlags(m: Machine, e: bv8)
    ensures OffsetFlags(AddOffsetToSP(m, e).regs, m.regs, m.regs.sp, e)
  {
  }

  /** ADDSPs: SP plus the signed immediate byte. */
  function ADDSPs(m: Machine): (r: Option<Machine>)
    ensures r.Some? <==> OperandsFit(m.regs.pc, 1)
    ensures r.Some? ==> r.value == AddOffsetToSP(m, Imm(m, 1))
  {
    var e :- Operand8(m);
    Some(AddOffsetToSP(m, e))
  }

  /** LDHLSPs once its operand e is read: HL := SP + e (see LoadOffsetSum),
      SP unchanged, flags 00HC as for ADDSPs. */
  function LoadOffsetToHL(m: Machine, e: bv8): (r: Machine)
    ensures OnlyRegs(r, m, {H, L, F})
  {
    CommitHL(m, AddSigned(m.regs.sp, e), false, false,
             OffsetHalfCarry(m.regs.sp, e), OffsetCarry(m.regs.sp, e))
  }

  /** LDHLSPs loads SP plus the operand read as a signed byte. */
  lemma LoadOffsetSum(m: Machine, e: bv8)
    ensures LoadOffsetToHL(m, e).regs.HL() == m.regs.sp + SignExtend(e)
  {
  }

  /** LDHLSPs sets the same flags as ADDSPs. */
  lemma LoadOffsetFlags(m: Machine, e: bv8)
    ensures OffsetFlags(LoadOffsetToHL(m, e).regs, m.regs, m.regs.sp, e)
  {
  }

  /** LDHLSPs: HL := SP plus the signed immediate byte. */
  function LDHLSPs(m: Machine): (r: Option<Machine>)
    ensures r.Some? <==> OperandsFit(m.regs.pc, 1)
    ensures r.Some? ==> r.value == LoadOffsetToHL(m, Imm(m, 1))
  {
    var e :- Operand8(m);
    Some(LoadOffsetToHL(m, e))
  }

  // ---------------------------------------------------------------------------
  // Increments and decrements of 16-bit registers; no flags change

  /** INCrr: hi:lo := hi:lo + 1, wrapping at 16 bits. */
  function INCrr(m: Machine, hi: Reg8, lo: Reg8): (r: Machine)
    ensures OnlyRegs(r, m, {hi, lo})
    ensures hi != lo ==> r.regs.Pair(hi, lo) == WordSum(m.regs.Pair(hi, lo), 1)
  {
    WordSumValue(m.regs.Pair(hi, lo), 1);
    m.(regs := m.regs.SetPair(hi, lo, m.regs.Pair(hi, lo) + 1))
  }

  /** DECrr: hi:lo := hi:lo - 1, wrapping at 16 bits. */
  function DECrr(m: Machine, hi: Reg8, lo: Reg8): (r: Machine)
    ensures OnlyRegs(r, m, {hi, lo})
    ensures hi != lo ==> WordSum(r.regs.Pair(hi, lo), 1) == m.regs.Pair(hi, lo)
  {
    var rr := m.regs.Pair(hi, lo);
    WordSumValue(rr - 1, 1);
    m.(regs := m.regs.SetPair(hi, lo, rr - 1))
  }

  /** INCSP: SP := SP + 1, wrapping at 16 bits. */
  function INCSP(m: Machine): (r: Machine)
    ensures r == m.(regs := r.regs) && r.regs == m.regs.(sp := r.regs.sp)
    ensures r.regs.sp == WordSum(m.regs.sp, 1)
  {
    WordSumValue(m.regs.sp, 1);
    m.(regs := m.regs.(sp := m.regs.sp + 1))
  }

  /** DECSP: SP := SP - 1, wrapping at 16 bits. */
  function DECSP(m: Machine): (r: Machine)
    ensures r == m.(regs := r.regs) && r.regs == m.regs.(sp := r.regs.sp)
    ensures WordSum(r.regs.sp, 1) == m.regs.sp
  {
    WordSumValue(m.regs.sp - 1, 1);
    m.(regs := m.regs.(sp := m.regs.sp - 1))
  }
}

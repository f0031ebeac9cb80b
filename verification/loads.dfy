/** The load and store executors of cpu/executors.go: register to register,
    immediate operands, memory through a register pair, the 0xFF00 page, the
    auto-incrementing and auto-decrementing forms, and the stores of SP. */
module Loads {
  import opened Wrappers
  import opened Bytes
  import opened Registers
  import opened CpuState

  /** Memory agrees with `o` at every address except `addr`. */
  ghost predicate MemExcept(m: Mem, o: Mem, addr: bv16) {
    forall a: bv16 :: a != addr ==> Load(m, a) == Load(o, a)
  }

  /** A store of `v` at `addr`: registers and `Jumped` kept, one memory cell
      changed. */
  ghost predicate StoredAt(r: Machine, m: Machine, addr: bv16, v: bv8) {
    && r.regs == m.regs
    && r.jumped == m.jumped
    && Load(r.mem, addr) == v
    && MemExcept(r.mem, m.mem, addr)
  }

  /** The I/O page address 0xFF00 + n. */
  function HighPage(n: bv8): (addr: bv16)
    ensures High(addr) == 0xFF && Low(addr) == n
  {
    0xFF00 + n as bv16
  }

  /** LDrr: to := from. */
  function LDrr(m: Machine, to: Reg8, from: Reg8): (r: Machine)
    ensures OnlyRegs(r, m, {to})
    ensures r.regs.Get(to) == m.regs.Get(from)
  {
    m.(regs := m.regs.Set(to, m.regs.Get(from)))
  }

  /** LDrn (and INCrn, which does the same): reg := the immediate byte. */
  function LDrn(m: Machine, reg: Reg8): (r: Option<Machine>)
    ensures r.Some? <==> OperandsFit(m.regs.pc, 1)
    ensures r.Some? ==> OnlyRegs(r.value, m, {reg}) && r.value.regs.Get(reg) == Imm(m, 1)
  {
    var n :- Operand8(m);
    Some(m.(regs := m.regs.Set(reg, n)))
  }

  /** LDrrnn: hi:lo := the immediate little-endian word. */
  function LDrrnn(m: Machine, hi: Reg8, lo: Reg8): (r: Option<Machine>)
    ensures r.Some? <==> OperandsFit(m.regs.pc, 2)
    ensures r.Some? ==> OnlyRegs(r.value, m, {hi, lo})
    ensures r.Some? && hi != lo ==> r.value.regs.Pair(hi, lo) == Imm16(m)
  {
    var nn :- Operand16(m);
    Some(m.(regs := m.regs.SetPair(hi, lo, nn)))
  }

  /** LDrrr: both halves of hi:lo := op. */
  function LDrrr(m: Machine, hi: Reg8, lo: Reg8, op: Reg8): (r: Machine)
    ensures OnlyRegs(r, m, {hi, lo})
    ensures r.regs.Get(hi) == m.regs.Get(op) && r.regs.Get(lo) == m.regs.Get(op)
  {
    var v := m.regs.Get(op);
    m.(regs := m.regs.SetPair(hi, lo, Word(v, v)))
  }

  /** LDSPHL: SP := HL. */
  function LDSPHL(m: Machine): (r: Machine)
    ensures r.mem == m.mem && r.jumped == m.jumped
    ensures r.regs == m.regs.(sp := m.regs.HL())
  {
    m.(regs := m.regs.(sp := Word(m.regs.Get(H), m.regs.Get(L))))
  }

  /** LDSPnn: SP := the immediate little-endian word. */
  function LDSPnn(m: Machine): (r: Option<Machine>)
    ensures r.Some? <==> OperandsFit(m.regs.pc, 2)
    ensures r.Some? ==> r.value.mem == m.mem && r.value.jumped == m.jumped
    ensures r.Some? ==> r.value.regs == m.regs.(sp := Imm16(m))
  {
    var nn :- Operand16(m);
    Some(m.(regs := m.regs.(sp := nn)))
  }

  /** LDaaSP: SP stored little-endian at the immediate address. */
  function LDaaSP(m: Machine): (r: Option<Machine>)
    ensures r.Some? <==> OperandsFit(m.regs.pc, 2)
    ensures r.Some? ==> r.value == StoreSP(m, Imm16(m))
  {
    var nn :- Operand16(m);
    Some(StoreSP(m, nn))
  }

  /** LDaaSP once the address nn is read: the low byte of SP goes to nn, then
      the high byte to nn + 1 (wrapping at 16 bits). */
  function StoreSP(m: Machine, nn: bv16): (r: Machine)
    ensures r.regs == m.regs && r.jumped == m.jumped
  {
    m.(mem := Store(Store(m.mem, nn, Low(m.regs.sp)), nn + 1, High(m.regs.sp)))
  }

  /** StoreSP writes SP's low byte at nn and its high byte at nn + 1. */
  lemma StoreSPWritesWord(m: Machine, nn: bv16)
    ensures Load(StoreSP(m, nn).mem, nn) == Low(m.regs.sp)
    ensures Load(StoreSP(m, nn).mem, nn + 1) == High(m.regs.sp)
  {
    assert nn + 1 != nn;
  }

  /** StoreSP changes no other memory cell. */
  lemma StoreSPElsewhere(m: Machine, nn: bv16, a: bv16)
    requires a != nn && a != nn + 1
    ensures Load(StoreSP(m, nn).mem, a) == Load(m.mem, a)
  {
  }

  /** LDraa: reg := the byte at hi:lo. */
  function LDraa(m: Machine, reg: Reg8, hi: Reg8, lo: Reg8): (r: Machine)
    ensures OnlyRegs(r, m, {reg})
    ensures r.regs.Get(reg) == Load(m.mem, m.regs.Pair(hi, lo))
  {
    m.(regs := m.regs.Set(reg, At(m, hi, lo)))
  }

  /** LDaar: the byte at hi:lo := reg. */
  function LDaar(m: Machine, hi: Reg8, lo: Reg8, reg: Reg8): (r: Machine)
    ensures StoredAt(r, m, m.regs.Pair(hi, lo), m.regs.Get(reg))
  {
    m.(mem := Store(m.mem, m.regs.Pair(hi, lo), m.regs.Get(reg)))
  }

  /** LDnnr: the byte at the immediate address := reg. */
  function LDnnr(m: Machine, reg: Reg8): (r: Option<Machine>)
    ensures r.Some? <==> OperandsFit(m.regs.pc, 2)
    ensures r.Some? ==> StoredAt(r.value, m, Imm16(m), m.regs.Get(reg))
  {
    var nn :- Operand16(m);
    Some(m.(mem := Store(m.mem, nn, m.regs.Get(reg))))
  }

  /** LDrnn: reg := the byte at the immediate address. */
  function LDrnn(m: Machine, reg: Reg8): (r: Option<Machine>)
    ensures r.Some? <==> OperandsFit(m.regs.pc, 2)
    ensures r.Some? ==>
      OnlyRegs(r.value, m, {reg}) && r.value.regs.Get(reg) == Load(m.mem, Imm16(m))
  {
    var nn :- Operand16(m);
    Some(m.(regs := m.regs.Set(reg, Load(m.mem, nn))))
  }

  /** LDffrr: the byte at 0xFF00 + r1 := r2. */
  function LDffrr(m: Machine, r1: Reg8, r2: Reg8): (r: Machine)
    ensures StoredAt(r, m, HighPage(m.regs.Get(r1)), m.regs.Get(r2))
  {
    m.(mem := Store(m.mem, 0xFF00 + m.regs.Get(r1) as bv16, m.regs.Get(r2)))
  }

  /** LDrffr: r1 := the byte at 0xFF00 + r2. */
  function LDrffr(m: Machine, r1: Reg8, r2: Reg8): (r: Machine)
    ensures OnlyRegs(r, m, {r1})
    ensures r.regs.Get(r1) == Load(m.mem, HighPage(m.regs.Get(r2)))
  {
    m.(regs := m.regs.Set(r1, Load(m.mem, 0xFF00 + m.regs.Get(r2) as bv16)))
  }

  /** LDffnr: the byte at 0xFF00 + the immediate byte := reg. */
  function LDffnr(m: Machine, reg: Reg8): (r: Option<Machine>)
    ensures r.Some? <==> OperandsFit(m.regs.pc, 1)
    ensures r.Some? ==> StoredAt(r.value, m, HighPage(Imm(m, 1)), m.regs.Get(reg))
  {
    var n :- Operand8(m);
    Some(m.(mem := Store(m.mem, 0xFF00 + n as bv16, m.regs.Get(reg))))
  }

  /** LDrffn: reg := the byte at 0xFF00 + the immediate byte. */
  function LDrffn(m: Machine, reg: Reg8): (r: Option<Machine>)
    ensures r.Some? <==> OperandsFit(m.regs.pc, 1)
    ensures r.Some? ==> OnlyRegs(r.value, m, {reg})
    ensures r.Some? ==> r.value.regs.Get(reg) == Load(m.mem, HighPage(Imm(m, 1)))
  {
    var n :- Operand8(m);
    Some(m.(regs := m.regs.Set(reg, Load(m.mem, 0xFF00 + n as bv16))))
  }

  /** LDaan: the byte at hi:lo := the immediate byte. */
  function LDaan(m: Machine, hi: Reg8, lo: Reg8): (r: Option<Machine>)
    ensures r.Some? <==> OperandsFit(m.regs.pc, 1)
    ensures r.Some? ==> StoredAt(r.value, m, m.regs.Pair(hi, lo), Imm(m, 1))
  {
    var n :- Operand8(m);
    Some(m.(mem := Store(m.mem, m.regs.Pair(hi, lo), n)))
  }

  /** LDDaaR: the byte at a1:a2 := reg, then reg (not the address pair) is
      decremented. */
  function LDDaaR(m: Machine, a1: Reg8, a2: Reg8, reg: Reg8): (r: Machine)
    ensures r.jumped == m.jumped
    ensures Load(r.mem, m.regs.Pair(a1, a2)) == m.regs.Get(reg)
    ensures MemExcept(r.mem, m.mem, m.regs.Pair(a1, a2))
    ensures r.regs.SameExcept(m.regs, {reg})
    ensures r.regs.Get(reg) + 1 == m.regs.Get(reg)
  {
    var mem := Store(m.mem, m.regs.Pair(a1, a2), m.regs.Get(reg));
    Machine(m.regs.Set(reg, m.regs.Get(reg) - 1), mem, m.jumped)
  }

  /** LDIaaR: the byte at a1:a2 := reg, then HL is incremented. */
  function LDIaaR(m: Machine, a1: Reg8, a2: Reg8, reg: Reg8): (r: Machine)
    ensures r.jumped == m.jumped
    ensures Load(r.mem, m.regs.Pair(a1, a2)) == m.regs.Get(reg)
    ensures MemExcept(r.mem, m.mem, m.regs.Pair(a1, a2))
    ensures r.regs.SameExcept(m.regs, {H, L})
    ensures r.regs.HL() - 1 == m.regs.HL()
  {
    var mem := Store(m.mem, m.regs.Pair(a1, a2), m.regs.Get(reg));
    Machine(m.regs.SetPair(H, L, m.regs.HL() + 1), mem, m.jumped)
  }

  /** LDIRaa: reg := the byte at a1:a2, then HL is incremented (from its value
      after that load, should reg be H or L). */
  function LDIRaa(m: Machine, reg: Reg8, a1: Reg8, a2: Reg8): (r: Machine)
    ensures OnlyRegs(r, m, {reg, H, L})
  {
    var s1 := m.regs.Set(reg, At(m, a1, a2));
    m.(regs := s1.SetPair(H, L, s1.HL() + 1))
  }

  /** LDIRaa into a register other than H and L loads the addressed byte. */
  lemma LoadIncrementLoads(m: Machine, reg: Reg8, a1: Reg8, a2: Reg8)
    requires reg != H && reg != L
    ensures LDIRaa(m, reg, a1, a2).regs.Get(reg) == At(m, a1, a2)
  {
  }

  /** ... and advances HL by one. */
  lemma LoadIncrementAdvances(m: Machine, reg: Reg8, a1: Reg8, a2: Reg8)
    requires reg != H && reg != L
    ensures LDIRaa(m, reg, a1, a2).regs.HL() - 1 == m.regs.HL()
  {
  }

  /** DECaa: the byte at hi:lo is decremented; no flags change. */
  function DECaa(m: Machine, hi: Reg8, lo: Reg8): (r: Machine)
    ensures var addr := m.regs.Pair(hi, lo);
      StoredAt(r, m, addr, Load(r.mem, addr)) && Load(r.mem, addr) + 1 == Load(m.mem, addr)
  {
    var addr := m.regs.Pair(hi, lo);
    m.(mem := Store(m.mem, addr, Load(m.mem, addr) - 1))
  }

  // ---------------------------------------------------------------------------
  // Round trips

  /** A byte stored through hi:lo by LDaar is what LDraa loads back. */
  lemma StoreThenLoad(m: Machine, hi: Reg8, lo: Reg8, reg: Reg8, dst: Reg8)
    ensures LDraa(LDaar(m, hi, lo, reg), dst, hi, lo).regs.Get(dst) == m.regs.Get(reg)
  {
    var s := LDaar(m, hi, lo, reg);
    assert s.regs == m.regs;
  }

  /** The same through the 0xFF00 page: LDffrr stores r2 at 0xFF00 + r1, and
      LDrffr with the same offset register reads it back. */
  lemma HighPageStoreThenLoad(m: Machine, r1: Reg8, r2: Reg8, dst: Reg8)
    ensures LDrffr(LDffrr(m, r1, r2), dst, r1).regs.Get(dst) == m.regs.Get(r2)
  {
    var s := LDffrr(m, r1, r2);
    assert s.regs == m.regs;
  }

  /** The two bytes StoreSP writes read back, little-endian, as SP. */
  lemma StoreSPReadsBack(m: Machine, nn: bv16)
    ensures Word(Load(StoreSP(m, nn).mem, nn + 1), Load(StoreSP(m, nn).mem, nn)) == m.regs.sp
  {
    StoreSPWritesWord(m, nn);
    WordOfHalves(m.regs.sp);
  }

  /** LDDaaR through HL leaves HL where it was and decrements the source
      register instead. */
  lemma StoreDecrementKeepsHL(m: Machine, reg: Reg8)
    requires reg != H && reg != L
    ensures LDDaaR(m, H, L, reg).regs.HL() == m.regs.HL()
    ensures LDDaaR(m, H, L, reg).regs.Get(reg) == m.regs.Get(reg) - 1
  {
  }

  /** LDIaaR through HL stores the register at the old HL and moves HL on by
      one. */
  lemma StoreIncrementAdvances(m: Machine, reg: Reg8)
    ensures Load(LDIaaR(m, H, L, reg).mem, m.regs.HL()) == m.regs.Get(reg)
    ensures LDIaaR(m, H, L, reg).regs.HL() == m.regs.HL() + 1
  {
  }
}

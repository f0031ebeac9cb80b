/** The CPU state the executors of cpu/executors.go act on, the immediate
    operand fetch, and the byte stack. */
module CpuState {
  import opened Wrappers
  import opened Bytes
  import opened Registers

  /** Registers, the 64 KiB memory, and the `Jumped` flag that tells the
      dispatcher not to advance PC past an instruction that moved it. */
  datatype Machine = Machine(regs: Regs, mem: Mem, jumped: bool)

  /** The outcome of a conditional executor: the new state and the extra
      cycles it reports (0 when the condition fails). */
  datatype Branch = Branch(m: Machine, extra: nat)

  /** Everything but the named byte registers is as in `o`: memory, SP, PC,
      `Jumped` and the other byte registers. */
  ghost predicate OnlyRegs(m: Machine, o: Machine, changed: set<Reg8>) {
    && m.mem == o.mem
    && m.jumped == o.jumped
    && m.regs.SameExcept(o.regs, changed)
  }

  /** The byte at HL-style address `hi:lo`. */
  function At(m: Machine, hi: Reg8, lo: Reg8): bv8 {
    Load(m.mem, m.regs.Pair(hi, lo))
  }

  // ---------------------------------------------------------------------------
  // Immediate operands

  /** Whether the slice `Memory[PC+1 : PC+1+n]` of getOperands is well formed:
      its 16-bit end index must not wrap below its start. */
  predicate OperandsFit(pc: bv16, n: bv16)
    requires 1 <= n <= 2
  {
    pc <= 0xFFFE - n || pc == 0xFFFF
  }

  /** The i-th byte after the opcode (i = 1 or 2), address wrapping at 16 bits. */
  function Imm(m: Machine, i: bv16): bv8 {
    Load(m.mem, m.regs.pc + i)
  }

  /** The little-endian word after the opcode. */
  function Imm16(m: Machine): bv16 {
    Word(Imm(m, 2), Imm(m, 1))
  }

  /** getOperands: the slice of memory between PC+1 and PC+1+n, both indices
      computed in 16 bits; `None` where Go's slice expression would panic
      (its end index wrapped below its start). The executors ask for one or
      two bytes. */
  function Operands(m: Machine, n: bv16): (r: Option<seq<bv8>>)
    requires n == 1 || n == 2
    ensures r.Some? <==> OperandsFit(m.regs.pc, n)
    ensures r.Some? ==> |r.value| == (if n == 1 then 1 else 2) && r.value[0] == Imm(m, 1)
    ensures r.Some? && n == 2 ==> r.value[1] == Imm(m, 2)
  {
    var begin := m.regs.pc + 1;
    var end := m.regs.pc + (1 + n);
    SliceFits(m.regs.pc, n);
    if begin > end then None
    else if n == 1 then Some([Imm(m, 1)])
    else Some([Imm(m, 1), Imm(m, 2)])
  }

  /** The slice bounds of getOperands are ordered exactly when OperandsFit. */
  lemma SliceFits(pc: bv16, n: bv16)
    requires n == 1 || n == 2
    ensures pc + 1 <= pc + (1 + n) <==> OperandsFit(pc, n)
  {
    if n == 1 {
      assert 1 + n == 2;
    } else {
      assert 1 + n == 3;
    }
  }

  /** `getOperands(1)[0]`. */
  function Operand8(m: Machine): (r: Option<bv8>)
    ensures r.Some? <==> OperandsFit(m.regs.pc, 1)
    ensures r.Some? ==> r.value == Imm(m, 1)
  {
    match Operands(m, 1)
    case None => None
    case Some(s) => Some(s[0])
  }

  /** `binary.LittleEndian.Uint16(getOperands(2))`. */
  function Operand16(m: Machine): (r: Option<bv16>)
    ensures r.Some? <==> OperandsFit(m.regs.pc, 2)
    ensures r.Some? ==> r.value == Imm16(m)
  {
    match Operands(m, 2)
    case None => None
    case Some(s) => Some(Word(s[1], s[0]))
  }

  /** getValCartAddr: the slice `Memory[begin : begin + (n - 1)]` where begin
      is `hi:lo`, indices in 16 bits; `None` where the slice would panic. The
      executors ask for n = 1 or n = 2, so the slice is one byte shorter than
      they expect. */
  function ValCartAddr(m: Machine, hi: Reg8, lo: Reg8, n: bv16): (r: Option<seq<bv8>>)
    requires n == 1 || n == 2
    ensures r.Some? ==> |r.value| == (if n == 1 then 0 else 1)
    ensures r.Some? && n == 2 ==> r.value[0] == At(m, hi, lo)
    ensures n == 1 ==> r == Some([])
    ensures n == 2 ==> (r.Some? <==> m.regs.Pair(hi, lo) != 0xFFFF)
  {
    var begin := m.regs.Pair(hi, lo);
    var end := begin + (n - 1);
    if begin > end then None
    else if n == 1 then Some([])
    else Some([Load(m.mem, begin)])
  }

  // ---------------------------------------------------------------------------
  // The byte stack (pushByteToStack / popByteFromStack)

  /** Pre-decrement SP, then store the byte at the new SP. */
  function PushByte(m: Machine, b: bv8): (r: Machine)
    ensures r.regs == m.regs.(sp := m.regs.sp - 1)
    ensures Load(r.mem, r.regs.sp) == b
    ensures forall a: bv16 :: a != r.regs.sp ==> Load(r.mem, a) == Load(m.mem, a)
    ensures r.jumped == m.jumped
  {
    var sp := m.regs.sp - 1;
    m.(regs := m.regs.(sp := sp), mem := Store(m.mem, sp, b))
  }

  /** Load the byte at SP, then post-increment SP. */
  function PopByte(m: Machine): (r: (bv8, Machine))
    ensures r.0 == Load(m.mem, m.regs.sp)
    ensures r.1 == m.(regs := m.regs.(sp := m.regs.sp + 1))
  {
    (Load(m.mem, m.regs.sp), m.(regs := m.regs.(sp := m.regs.sp + 1)))
  }

  /** The two stack helpers form a LIFO: popping right after a push returns
      the pushed byte and restores SP; only the pushed cell changed. */
  lemma PopUndoesPush(m: Machine, b: bv8)
    ensures PopByte(PushByte(m, b)).0 == b
    ensures PopByte(PushByte(m, b)).1.regs == m.regs
    ensures PopByte(PushByte(m, b)).1.mem == Store(m.mem, m.regs.sp - 1, b)
  {
  }
}

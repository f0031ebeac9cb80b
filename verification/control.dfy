/** The control-flow and stack executors of cpu/executors.go: JP, JR,
    CALL, RET, RST and their conditional forms, PUSH and POP. The
    conditional forms return the extra cycles they cost when taken. */
module Control {
  import opened Wrappers
  import opened Bytes
  import opened Registers
  import opened CpuState

  /** The flag test of a conditional executor: the `Z`, `NZ`, `C` and `NC`
      variants of JP, JR, CALL and RET. */
  datatype Cond = IfZ | IfNZ | IfC | IfNC

  /** Whether the condition holds; Z is bit 7 of F and C is bit 4. */
  predicate Holds(regs: Regs, cond: Cond) {
    match cond
    case IfZ => (regs.f() >> 7) & 1 != 0
    case IfNZ => (regs.f() >> 7) & 1 == 0
    case IfC => (regs.f() >> 4) & 1 != 0
    case IfNC => (regs.f() >> 4) & 1 == 0
  }

  /** The conditions read the flags the arithmetic executors set. */
  lemma HoldsMeansFlag(regs: Regs, cond: Cond)
    ensures Holds(regs, cond) <==>
      match cond
      case IfZ => regs.Zero()
      case IfNZ => !regs.Zero()
      case IfC => regs.Carry()
      case IfNC => !regs.Carry()
  {
  }

  /** A jump to `target`: PC := target and `Jumped` set; nothing else changes. */
  ghost predicate JumpedTo(r: Machine, m: Machine, target: bv16) {
    && r.regs == m.regs.(pc := target)
    && r.mem == m.mem
    && r.jumped
  }

  /** PC + 2 + e for the signed displacement e. */
  function RelativeTarget(pc: bv16, e: bv8): bv16 {
    pc + 2 + SignExtend(e)
  }

  // ---------------------------------------------------------------------------
  // Jumps

  /** JPaa: PC := the immediate word. */
  function JPaa(m: Machine): (r: Option<Machine>)
    ensures r.Some? <==> OperandsFit(m.regs.pc, 2)
    ensures r.Some? ==> JumpedTo(r.value, m, Imm16(m))
  {
    var nn :- Operand16(m);
    Some(m.(regs := m.regs.(pc := nn), jumped := true))
  }

  /** JPHL (called with H, L): PC := hi:lo. */
  function JPHL(m: Machine, hi: Reg8, lo: Reg8): (r: Machine)
    ensures JumpedTo(r, m, m.regs.Pair(hi, lo))
  {
    m.(regs := m.regs.(pc := Word(m.regs.Get(hi), m.regs.Get(lo))), jumped := true)
  }

  /** JPZaa, JPNZaa, JPCaa, JPNCaa: JPaa and 4 extra cycles when the condition
      holds; otherwise no change and 0. The operand is only read when taken. */
  function JPcc(m: Machine, cond: Cond): (r: Option<Branch>)
    ensures !Holds(m.regs, cond) ==> r == Some(Branch(m, 0))
    ensures Holds(m.regs, cond) ==>
      && (r.Some? <==> OperandsFit(m.regs.pc, 2))
      && (r.Some? ==> r.value.extra == 4 && JumpedTo(r.value.m, m, Imm16(m)))
  {
    if Holds(m.regs, cond) then
      var j :- JPaa(m);
      Some(Branch(j, 4))
    else
      Some(Branch(m, 0))
  }

  /** JRn: PC := PC + 2, then plus or minus the displacement. */
  function JRn(m: Machine): (r: Option<Machine>)
    ensures r.Some? <==> OperandsFit(m.regs.pc, 1)
    ensures r.Some? ==> JumpedTo(r.value, m, RelativeTarget(m.regs.pc, Imm(m, 1)))
  {
    var e :- Operand8(m);
    Some(RelativeJump(m, e))
  }

  /** The body shared by JRn and the conditional JRs: step PC over the two
      instruction bytes, then add e, or subtract 256 - e when e > 127. */
  function RelativeJump(m: Machine, e: bv8): (r: Machine)
    ensures JumpedTo(r, m, RelativeTarget(m.regs.pc, e))
  {
    assert AddSigned(m.regs.pc + 2, e) == RelativeTarget(m.regs.pc, e);
    m.(regs := m.regs.(pc := AddSigned(m.regs.pc + 2, e)), jumped := true)
  }

  /** JRZn, JRNZn, JRCn, JRNCn: the displacement is read first, whether or
      not the jump is taken; 4 extra cycles when taken. */
  function JRcc(m: Machine, cond: Cond): (r: Option<Branch>)
    ensures r.Some? <==> OperandsFit(m.regs.pc, 1)
    ensures r.Some? && !Holds(m.regs, cond) ==> r.value == Branch(m, 0)
    ensures r.Some? && Holds(m.regs, cond) ==>
      r.value.extra == 4 && JumpedTo(r.value.m, m, RelativeTarget(m.regs.pc, Imm(m, 1)))
  {
    var e :- Operand8(m);
    if Holds(m.regs, cond) then Some(Branch(RelativeJump(m, e), 4))
    else Some(Branch(m, 0))
  }

  // ---------------------------------------------------------------------------
  // The stack

  /** Two byte pushes: `first` lands at SP - 1 and `second` at SP - 2. */
  ghost predicate PushedTwo(r: Machine, m: Machine, first: bv8, second: bv8) {
    && r.regs == m.regs.(sp := m.regs.sp - 2)
    && r.jumped == m.jumped
    && Load(r.mem, m.regs.sp - 1) == first
    && Load(r.mem, m.regs.sp - 2) == second
    && forall a: bv16 :: a != m.regs.sp - 1 && a != m.regs.sp - 2 ==>
         Load(r.mem, a) == Load(m.mem, a)
  }

  function PushTwo(m: Machine, first: bv8, second: bv8): (r: Machine)
    ensures PushedTwo(r, m, first, second)
  {
    PushByte(PushByte(m, first), second)
  }

  /** PUSHrr: push r1, then r2, so r2 ends up at the lower address. */
  function PUSHrr(m: Machine, r1: Reg8, r2: Reg8): (r: Machine)
    ensures PushedTwo(r, m, m.regs.Get(r1), m.regs.Get(r2))
  {
    PushTwo(m, m.regs.Get(r1), m.regs.Get(r2))
  }

  /** POPrr: pop b1, then b2; r1 := b2, r2 := b1; then the low nibble of F
      is cleared, whichever pair was popped. */
  function POPrr(m: Machine, r1: Reg8, r2: Reg8): (r: Machine)
    ensures r.mem == m.mem && r.jumped == m.jumped
    ensures r.regs.sp == m.regs.sp + 2 && r.regs.pc == m.regs.pc
    ensures r.regs.f() & 0x0F == 0
    ensures r1 != r2 && r1 != F ==> r.regs.Get(r1) == Load(m.mem, m.regs.sp + 1)
    ensures r2 != F ==> r.regs.Get(r2) == Load(m.mem, m.regs.sp)
    ensures r2 == F ==> r.regs.f() == Load(m.mem, m.regs.sp) & 0xF0
    ensures forall q :: q != r1 && q != r2 && q != F ==> r.regs.Get(q) == m.regs.Get(q)
  {
    var (b1, m1) := PopByte(m);
    var (b2, m2) := PopByte(m1);
    var s := m2.regs.Set(r1, b2).Set(r2, b1);
    m2.(regs := s.Set(F, s.f() & 0xF0))
  }

  // ---------------------------------------------------------------------------
  // Calls and returns

  /** CALLaa: push the high then the low byte of PC + 3, then read the target
      from the two bytes after the opcode — in memory as it is after the
      pushes, so a stack overlapping them changes the target — and jump. */
  function CALLaa(m: Machine): (r: Option<Machine>)
    ensures r.Some? <==> OperandsFit(m.regs.pc, 2)
    ensures var pushed := PushTwo(m, High(m.regs.pc + 3), Low(m.regs.pc + 3));
      r.Some? ==> JumpedTo(r.value, pushed, Imm16(pushed))
  {
    var next := m.regs.pc + 3;
    JPaa(PushTwo(m, High(next), Low(next)))
  }

  /** CALLaa pushes the return address PC + 3, high byte first, touches no
      other memory cell and no byte register, and sets `Jumped`. */
  lemma CallPushesReturn(m: Machine)
    requires CALLaa(m).Some?
    ensures var c := CALLaa(m).value;
      && c.jumped
      && PushedTwo(c.(regs := m.regs.(sp := m.regs.sp - 2), jumped := m.jumped), m,
                   High(m.regs.pc + 3), Low(m.regs.pc + 3))
      && c.regs == m.regs.(sp := m.regs.sp - 2, pc := c.regs.pc)
  {
  }

  /** CALLZaa, CALLNZaa, CALLCaa, CALLNCaa: CALLaa and 12 extra cycles when
      the condition holds; otherwise no change and 0. */
  function CALLcc(m: Machine, cond: Cond): (r: Option<Branch>)
    ensures !Holds(m.regs, cond) ==> r == Some(Branch(m, 0))
    ensures Holds(m.regs, cond) ==>
      && (r.Some? <==> OperandsFit(m.regs.pc, 2))
      && (r.Some? ==> r.value.extra == 12 && Some(r.value.m) == CALLaa(m))
  {
    if Holds(m.regs, cond) then
      var c :- CALLaa(m);
      Some(Branch(c, 12))
    else
      Some(Branch(m, 0))
  }

  /** RET (and RETI, whose interrupt-enable step is a stub): pop the low then
      the high byte of PC. */
  function RET(m: Machine): (r: Machine)
    ensures r.jumped && r.mem == m.mem
    ensures r.regs == m.regs.(sp := m.regs.sp + 2, pc := r.regs.pc)
    ensures r.regs.pc == Word(Load(m.mem, m.regs.sp + 1), Load(m.mem, m.regs.sp))
  {
    var (b1, m1) := PopByte(m);
    var (b2, m2) := PopByte(m1);
    m2.(regs := m2.regs.(pc := Word(b2, b1)), jumped := true)
  }

  /** RETZ, RETNZ, RETC, RETNC: RET and 12 extra cycles when the condition
      holds; otherwise no change and 0. */
  function RETcc(m: Machine, cond: Cond): (r: Branch)
    ensures !Holds(m.regs, cond) ==> r == Branch(m, 0)
    ensures Holds(m.regs, cond) ==> r == Branch(RET(m), 12)
  {
    if Holds(m.regs, cond) then Branch(RET(m), 12) else Branch(m, 0)
  }

  /** RST: PC + 3 is written into SP itself (nothing is pushed and memory is
      untouched), and PC := 0x00:imm. `Jumped` is not set. */
  function RST(m: Machine, imm: bv8): (r: Machine)
    ensures r.mem == m.mem && r.jumped == m.jumped
    ensures r.regs == m.regs.(sp := m.regs.pc + 3, pc := r.regs.pc)
    ensures High(r.regs.pc) == 0 && Low(r.regs.pc) == imm
  {
    var val := m.regs.pc + 3;
    m.(regs := m.regs.(sp := val, pc := Word(0x00, imm)))
  }

  // ---------------------------------------------------------------------------
  // Stack round trips

  /** Two pops right after two pushes return the pushed bytes in reverse
      order and restore the registers. */
  lemma PopTwoAfterPushTwo(m: Machine, first: bv8, second: bv8)
    ensures PopByte(PushTwo(m, first, second)).0 == second
    ensures PopByte(PopByte(PushTwo(m, first, second)).1).0 == first
    ensures PopByte(PopByte(PushTwo(m, first, second)).1).1.regs == m.regs
  {
    PopSecond(m, first, second);
    PopFirst(m, first, second);
    PopRestoresRegs(m, first, second);
  }

  lemma PopSecond(m: Machine, first: bv8, second: bv8)
    ensures PopByte(PushTwo(m, first, second)).0 == second
  {
  }

  lemma PopFirst(m: Machine, first: bv8, second: bv8)
    ensures PopByte(PopByte(PushTwo(m, first, second)).1).0 == first
  {
  }

  lemma PopRestoresRegs(m: Machine, first: bv8, second: bv8)
    ensures PopByte(PopByte(PushTwo(m, first, second)).1).1.regs == m.regs
  {
  }

  /** RET after CALLaa comes back to the instruction after the call, with SP
      and the byte registers restored. */
  lemma CallThenReturn(m: Machine)
    requires CALLaa(m).Some?
    ensures RET(CALLaa(m).value).regs.pc == m.regs.pc + 3
    ensures RET(CALLaa(m).value).regs.sp == m.regs.sp
    ensures RET(CALLaa(m).value).regs.bank == m.regs.bank
  {
    var next := m.regs.pc + 3;
    var p := PushTwo(m, High(next), Low(next));
    PopTwoAfterPushTwo(m, High(next), Low(next));
    ReturnReadsStack(CALLaa(m).value, p);
    WordOfHalves(next);
  }

  /** RET only looks at SP and the memory: from any state agreeing with `p`
      on those it pops what two PopBytes of `p` would. */
  lemma ReturnReadsStack(c: Machine, p: Machine)
    requires c.mem == p.mem && c.regs.sp == p.regs.sp && c.regs.bank == p.regs.bank
    ensures RET(c).regs.pc == Word(PopByte(PopByte(p).1).0, PopByte(p).0)
    ensures RET(c).regs.sp == PopByte(PopByte(p).1).1.regs.sp
    ensures RET(c).regs.bank == p.regs.bank
  {
  }

  /** POPrr of the pair PUSHrr just pushed gives back both registers and SP;
      only the low nibble of F is lost. */
  lemma PushThenPop(m: Machine, r1: Reg8, r2: Reg8)
    requires r1 != r2
    ensures var back := POPrr(PUSHrr(m, r1, r2), r1, r2);
      && back.regs.sp == m.regs.sp
      && (r1 != F ==> back.regs.Get(r1) == m.regs.Get(r1))
      && (r2 != F ==> back.regs.Get(r2) == m.regs.Get(r2))
      && (r2 == F ==> back.regs.f() == m.regs.f() & 0xF0)
  {
    PushPopSp(m, r1, r2);
    if r1 != F {
      PushPopFirst(m, r1, r2);
    }
    if r2 != F {
      PushPopSecond(m, r1, r2);
    } else {
      PushPopFlags(m, r1, r2);
    }
  }

  lemma PushPopSp(m: Machine, r1: Reg8, r2: Reg8)
    ensures POPrr(PUSHrr(m, r1, r2), r1, r2).regs.sp == m.regs.sp
  {
  }

  lemma PushPopFirst(m: Machine, r1: Reg8, r2: Reg8)
    requires r1 != r2 && r1 != F
    ensures POPrr(PUSHrr(m, r1, r2), r1, r2).regs.Get(r1) == m.regs.Get(r1)
  {
    PopFirst(m, m.regs.Get(r1), m.regs.Get(r2));
  }

  lemma PushPopSecond(m: Machine, r1: Reg8, r2: Reg8)
    requires r2 != F
    ensures POPrr(PUSHrr(m, r1, r2), r1, r2).regs.Get(r2) == m.regs.Get(r2)
  {
    PopSecond(m, m.regs.Get(r1), m.regs.Get(r2));
  }

  lemma PushPopFlags(m: Machine, r1: Reg8, r2: Reg8)
    requires r2 == F
    ensures POPrr(PUSHrr(m, r1, r2), r1, r2).regs.f() == m.regs.f() & 0xF0
  {
    PopSecond(m, m.regs.Get(r1), m.regs.Get(r2));
  }

  /** RST does not push: a RET after it pops whatever was at PC + 3 and
      PC + 4, not the address it came from. */
  lemma RestartDoesNotPush(m: Machine, imm: bv8)
    ensures RET(RST(m, imm)).regs.pc == Word(Load(m.mem, m.regs.pc + 4), Load(m.mem, m.regs.pc + 3))
  {
    ReturnPops(RST(m, imm), m.regs.pc + 3, m.mem);
    assert m.regs.pc + 3 + 1 == m.regs.pc + 4;
  }

  /** RET pops the word at SP, low byte first. */
  lemma ReturnPops(c: Machine, sp: bv16, mem: Mem)
    requires c.regs.sp == sp && c.mem == mem
    ensures RET(c).regs.pc == Word(Load(mem, sp + 1), Load(mem, sp))
  {
  }
}

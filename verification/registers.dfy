/** The LR35902 register file: eight byte registers, the flags byte F, the
    stack pointer and the program counter. */
module Registers {
  import opened Bytes

  /** The byte registers an executor can be handed (a Go `*byte` argument). */
  datatype Reg8 = A | B | C | D | E | F | H | L

  /** The byte registers an instruction names as an 8-bit operand. The
      instruction set has no encoding for F there, so the 8-bit executors are
      only ever handed one of these. */
  type ByteReg = r: Reg8 | r != F witness A

  /** Flag masks inside F: Z is bit 7, N bit 6, H bit 5, C bit 4. */
  const ZeroMask: bv8 := 0x80
  const SubtractMask: bv8 := 0x40
  const HalfCarryMask: bv8 := 0x20
  const CarryMask: bv8 := 0x10

  /** Set (`x |= mask`) or clear (`x &^= mask`) the bits of `mask`. */
  function SetMask(x: bv8, mask: bv8, on: bool): (r: bv8)
    ensures r & mask == (if on then mask else 0)
    ensures r & !mask == x & !mask
  {
    if on then x | mask else x & !mask
  }

  /** The register file: the eight byte registers as a bank indexed by
      designator, and the two 16-bit registers SP and PC of type W (always
      bv16, see Regs). */
  datatype RegFile<W(==)> = Regs(bank: Reg8 -> bv8, sp: W, pc: W)
  {
    function Get(r: Reg8): bv8 {
      bank(r)
    }

    function Set(r: Reg8, v: bv8): (s: RegFile<W>)
      ensures s.Get(r) == v
      ensures forall q :: q != r ==> s.Get(q) == Get(q)
      ensures s.sp == sp && s.pc == pc
    {
      this.(bank := q => if q == r then v else bank(q))
    }

    /** The flags byte. */
    function f(): bv8 {
      bank(F)
    }

    /** `JoinRegs(hi, lo)`. */
    function Pair(hi: Reg8, lo: Reg8): bv16 {
      Word(Get(hi), Get(lo))
    }

    /** `*hi, *lo = SplitWord(w)`: the high byte goes to `hi`, then the low
        byte to `lo` (so `lo` wins when both name the same register). */
    function SetPair(hi: Reg8, lo: Reg8, w: bv16): (s: RegFile<W>)
      ensures hi != lo ==> s.Pair(hi, lo) == w
      ensures s.Get(lo) == Low(w)
      ensures forall q :: q != hi && q != lo ==> s.Get(q) == Get(q)
      ensures s.sp == sp && s.pc == pc
    {
      Set(hi, High(w)).Set(lo, Low(w))
    }

    function HL(): bv16 {
      Pair(H, L)
    }

    predicate Zero() {
      f() & ZeroMask != 0
    }

    predicate Subtract() {
      f() & SubtractMask != 0
    }

    predicate HalfCarry() {
      f() & HalfCarryMask != 0
    }

    predicate Carry() {
      f() & CarryMask != 0
    }

    /** `getCarry()`: the carry flag as the byte 0 or 1. */
    function CarryBit(): (r: bv8)
      ensures r == (if Carry() then 1 else 0)
    {
      (f() >> 4) & 1
    }

    function WithZero(on: bool): (s: RegFile<W>)
      ensures s.Zero() == on
      ensures s.Subtract() == Subtract() && s.HalfCarry() == HalfCarry() && s.Carry() == Carry()
      ensures s.f() & 0x0F == f() & 0x0F
      ensures forall q :: q != F ==> s.Get(q) == Get(q)
      ensures s.sp == sp && s.pc == pc
    {
      Set(F, SetMask(f(), ZeroMask, on))
    }

    function WithSubtract(on: bool): (s: RegFile<W>)
      ensures s.Subtract() == on
      ensures s.Zero() == Zero() && s.HalfCarry() == HalfCarry() && s.Carry() == Carry()
      ensures s.f() & 0x0F == f() & 0x0F
      ensures forall q :: q != F ==> s.Get(q) == Get(q)
      ensures s.sp == sp && s.pc == pc
    {
      Set(F, SetMask(f(), SubtractMask, on))
    }

    function WithHalfCarry(on: bool): (s: RegFile<W>)
      ensures s.HalfCarry() == on
      ensures s.Zero() == Zero() && s.Subtract() == Subtract() && s.Carry() == Carry()
      ensures s.f() & 0x0F == f() & 0x0F
      ensures forall q :: q != F ==> s.Get(q) == Get(q)
      ensures s.sp == sp && s.pc == pc
    {
      Set(F, SetMask(f(), HalfCarryMask, on))
    }

    function WithCarry(on: bool): (s: RegFile<W>)
      ensures s.Carry() == on
      ensures s.Zero() == Zero() && s.Subtract() == Subtract() && s.HalfCarry() == HalfCarry()
      ensures s.f() & 0x0F == f() & 0x0F
      ensures forall q :: q != F ==> s.Get(q) == Get(q)
      ensures s.sp == sp && s.pc == pc
    {
      Set(F, SetMask(f(), CarryMask, on))
    }

    /** All four flags at once: Z, N, H and C become z, n, h and cy; the
        unused low nibble of F stays. */
    function WithFlags(z: bool, n: bool, h: bool, cy: bool): (s: RegFile<W>)
      ensures s.Zero() == z && s.Subtract() == n && s.HalfCarry() == h && s.Carry() == cy
      ensures s.f() & 0x0F == f() & 0x0F
      ensures forall q :: q != F ==> s.Get(q) == Get(q)
      ensures s.sp == sp && s.pc == pc
    {
      Set(F, SetMask(SetMask(SetMask(SetMask(f(), ZeroMask, z), SubtractMask, n),
                                 HalfCarryMask, h), CarryMask, cy))
    }

    /** Every byte register outside `changed`, and SP and PC, agree with `o`. */
    predicate SameExcept(o: RegFile<W>, changed: set<Reg8>) {
      && sp == o.sp
      && pc == o.pc
      && forall q :: q !in changed ==> Get(q) == o.Get(q)
    }
  }

  /** The four flags of `s` are z, n, h and cy, and the unused low nibble of F
      is as in `o`. */
  predicate FlagsAre(s: Regs, o: Regs, z: bool, n: bool, h: bool, cy: bool) {
    && s.Zero() == z
    && s.Subtract() == n
    && s.HalfCarry() == h
    && s.Carry() == cy
    && s.f() & 0x0F == o.f() & 0x0F
  }

  /** The LR35902 register file. The 16-bit registers are kept in a type
      parameter rather than a bv16 field so that the solver treats them as
      opaque values until an arithmetic fact about them is needed. */
  type Regs = RegFile<bv16>
}

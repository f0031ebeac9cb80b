/** The 8-bit arithmetic and logic executors of cpu/executors.go: ADD, ADC,
    SUB, SBC, CP, AND, OR, XOR, INC and DEC on a byte register, an immediate
    operand or the byte at a register-pair address.

    Each executor is split in two: an Outcome function that does the Go
    code's byte arithmetic and flag tests, statement by statement, and the
    common write-back of the value and the four flags. The contracts state
    the outcome against reference definitions of carry and borrow on the
    full, unwrapped sum. */
module Alu8 {
  import opened Wrappers
  import opened Bytes
  import opened Registers
  import opened CpuState

  // ---------------------------------------------------------------------------
  // Reference definitions: what the flags of an addition or subtraction mean

  // Sums and differences of two bytes and a carry stay within [-256, 511],
  // so computing them on 16-bit words, as below, is exact; the source does
  // the same comparisons on Go `int`s.

  /** The low byte of the unwrapped sum x + y + c. */
  function SumByte(x: bv8, y: bv8, c: bv8): bv8 {
    ((x as bv16 + y as bv16 + c as bv16) & 0xFF) as bv8
  }

  /** Carry out of bit 7: the unwrapped sum x + y + c exceeds a byte. */
  predicate AddCarries(x: bv8, y: bv8, c: bv8)
    requires c <= 1
  {
    x as bv16 + y as bv16 + c as bv16 > 0xFF
  }

  /** Carry out of bit 3: the low nibbles and c sum past 0xF. */
  predicate AddHalfCarries(x: bv8, y: bv8, c: bv8)
    requires c <= 1
  {
    (x & 0xF) + (y & 0xF) + c > 0xF
  }

  /** Borrow out of bit 7: y + c is larger than x. */
  predicate SubBorrows(x: bv8, y: bv8, c: bv8)
    requires c <= 1
  {
    x as bv16 < y as bv16 + c as bv16
  }

  /** Borrow out of bit 4: the low nibble of y plus c exceeds that of x. */
  predicate SubHalfBorrows(x: bv8, y: bv8, c: bv8)
    requires c <= 1
  {
    x & 0xF < (y & 0xF) + c
  }

  /** A byte register after an addition of x, y and carry-in c: it holds the
      low byte of the sum, Z tells whether that is zero, N is clear, and H and
      C are the two carries. */
  predicate AddedTo(s: Regs, o: Regs, dst: Reg8, x: bv8, y: bv8, c: bv8)
    requires c <= 1
  {
    && s.Get(dst) == SumByte(x, y, c)
    && FlagsAre(s, o, s.Get(dst) == 0, false, AddHalfCarries(x, y, c), AddCarries(x, y, c))
  }

  /** A byte register after the subtraction x - y - c: adding y and c back
      gives x, Z tells whether it is zero, N is set, and H and C are the two
      borrows. */
  predicate SubtractedFrom(s: Regs, o: Regs, dst: Reg8, x: bv8, y: bv8, c: bv8)
    requires c <= 1
  {
    && SumByte(s.Get(dst), y, c) == x
    && FlagsAre(s, o, s.Get(dst) == 0, true, SubHalfBorrows(x, y, c), SubBorrows(x, y, c))
  }

  /** Bitwise results, stated one bit at a time. */
  ghost predicate BitsAnd(v: bv8, x: bv8, y: bv8) {
    forall i: bv8 :: i < 8 ==> (Bit(v, i) <==> Bit(x, i) && Bit(y, i))
  }

  ghost predicate BitsOr(v: bv8, x: bv8, y: bv8) {
    forall i: bv8 :: i < 8 ==> (Bit(v, i) <==> Bit(x, i) || Bit(y, i))
  }

  ghost predicate BitsXor(v: bv8, x: bv8, y: bv8) {
    forall i: bv8 :: i < 8 ==> (Bit(v, i) <==> Bit(x, i) != Bit(y, i))
  }

  // ---------------------------------------------------------------------------
  // What the wrapped byte arithmetic of the executors computes

  /** Without a carry-in, the wrapped sum is the low byte of the true sum, a
      sum that wrapped below its first operand carried, and bit 4 of the
      nibble sum is the half carry. */
  lemma AddByteFacts(x: bv8, y: bv8)
    ensures x + y == SumByte(x, y, 0)
    ensures (x + y < x) == AddCarries(x, y, 0)
    ensures ((x & 0xF) + (y & 0xF)) & 0x10 == 0x10 <==> AddHalfCarries(x, y, 0)
  {
    AddWraps(x, y);
    AddCarryTest(x, y);
    AddNibbleTest(x, y);
  }

  lemma AddWraps(x: bv8, y: bv8)
    ensures x + y == SumByte(x, y, 0)
  {
  }

  lemma AddCarryTest(x: bv8, y: bv8)
    ensures (x + y < x) == AddCarries(x, y, 0)
  {
  }

  lemma AddNibbleTest(x: bv8, y: bv8)
    ensures ((x & 0xF) + (y & 0xF)) & 0x10 == 0x10 <==> AddHalfCarries(x, y, 0)
  {
  }

  /** With a carry-in folded into the wrapped sum, the "result below the old
      value" test misses exactly one carrying case: y = 0xFF with carry-in 1,
      where the sum wraps all the way round to x. */
  lemma AddCarryByteFacts(x: bv8, y: bv8, c: bv8)
    requires c <= 1
    ensures x + y + c == SumByte(x, y, c)
    ensures ((x & 0xF) + (y & 0xF) + (c & 0xF)) & 0x10 == 0x10 <==> AddHalfCarries(x, y, c)
    ensures (x + y + c < x) <==> AddCarries(x, y, c) && !(y == 0xFF && c == 1)
  {
    AddCarryWraps(x, y, c);
    AddCarryNibbleTest(x, y, c);
    AddCarryWrapTest(x, y, c);
  }

  lemma AddCarryWraps(x: bv8, y: bv8, c: bv8)
    requires c <= 1
    ensures x + y + c == SumByte(x, y, c)
  {
    if c == 0 {
      AddWraps(x, y);
    } else {
      assert c == 1;
    }
  }

  lemma AddCarryNibbleTest(x: bv8, y: bv8, c: bv8)
    requires c <= 1
    ensures ((x & 0xF) + (y & 0xF) + (c & 0xF)) & 0x10 == 0x10 <==> AddHalfCarries(x, y, c)
  {
    if c == 0 {
      AddNibbleTest(x, y);
    } else {
      assert c == 1;
    }
  }

  lemma AddCarryWrapTest(x: bv8, y: bv8, c: bv8)
    requires c <= 1
    ensures (x + y + c < x) <==> AddCarries(x, y, c) && !(y == 0xFF && c == 1)
  {
    if c == 0 {
      AddCarryTest(x, y);
    } else {
      assert c == 1;
    }
  }

  /** ADCAn and ADCrr add the operand and the carry-in first; the wrapped
      byte is still the low byte of the true sum. */
  lemma AddCarryIntFacts(x: bv8, y: bv8, c: bv8)
    requires c <= 1
    ensures x + (y + c) == SumByte(x, y, c)
  {
    if c == 0 {
      AddWraps(x, y);
    } else {
      assert c == 1;
    }
  }

  /** Without a borrow-in, the wrapped difference plus y is x again, a
      difference that wrapped above x borrowed, and bit 4 of the nibble
      difference is the half borrow. */
  lemma SubByteFacts(x: bv8, y: bv8)
    ensures SumByte(x - y, y, 0) == x
    ensures (x - y > x) == SubBorrows(x, y, 0)
    ensures ((x & 0xF) - (y & 0xF)) & 0x10 == 0x10 <==> SubHalfBorrows(x, y, 0)
  {
    SubWraps(x, y);
    SubBorrowTest(x, y);
    SubNibbleTest(x, y);
  }

  lemma SubWraps(x: bv8, y: bv8)
    ensures SumByte(x - y, y, 0) == x
  {
  }

  lemma SubBorrowTest(x: bv8, y: bv8)
    ensures (x - y > x) == SubBorrows(x, y, 0)
  {
  }

  lemma SubNibbleTest(x: bv8, y: bv8)
    ensures ((x & 0xF) - (y & 0xF)) & 0x10 == 0x10 <==> SubHalfBorrows(x, y, 0)
  {
  }

  /** SBC folds the borrow-in into the subtrahend with a wrapping byte sum.
      The value is right, but the half borrow is lost whenever y's low
      nibble is 0xF with carry-in 1, and the borrow only when y = 0xFF with
      carry-in 1. */
  lemma SubCarryByteFacts(x: bv8, y: bv8, c: bv8)
    requires c <= 1
    ensures SumByte(x - (y + c), y, c) == x
    ensures (x - (y + c) > x) <==> SubBorrows(x, y, c) && !(y == 0xFF && c == 1)
    ensures (((x & 0xF) - ((y + c) & 0xF)) & 0x10 == 0x10)
              == (SubHalfBorrows(x, y, c) && !(y & 0xF == 0xF && c == 1))
  {
    SubCarryWraps(x, y, c);
    SubCarryBorrowTest(x, y, c);
    SubCarryNibbleTest(x, y, c);
  }

  lemma SubCarryWraps(x: bv8, y: bv8, c: bv8)
    requires c <= 1
    ensures SumByte(x - (y + c), y, c) == x
  {
    if c == 0 {
      SubWraps(x, y);
    } else {
      assert c == 1;
    }
  }

  lemma SubCarryBorrowTest(x: bv8, y: bv8, c: bv8)
    requires c <= 1
    ensures (x - (y + c) > x) <==> SubBorrows(x, y, c) && !(y == 0xFF && c == 1)
  {
    if c == 0 {
      SubBorrowTest(x, y);
    } else {
      assert c == 1;
    }
  }

  lemma SubCarryNibbleTest(x: bv8, y: bv8, c: bv8)
    requires c <= 1
    ensures (((x & 0xF) - ((y + c) & 0xF)) & 0x10 == 0x10)
              == (SubHalfBorrows(x, y, c) && !(y & 0xF == 0xF && c == 1))
  {
    if c == 0 {
      SubNibbleTest(x, y);
    } else {
      assert c == 1;
    }
  }

  /** SBCAn computes on a signed integer that never leaves [-256, 255]; the
      model holds it in 16 two's-complement bits. */
  function WideDifference(x: bv8, y: bv8, c: bv8): bv16 {
    x as bv16 - y as bv16 - c as bv16
  }

  /** That difference masked to its low byte (`result &= 0xFF`). */
  function WideLow(x: bv8, y: bv8, c: bv8): bv16 {
    WideDifference(x, y, c) & 0xFF
  }

  /** The sign bit of that difference is the borrow. */
  lemma WideBorrow(x: bv8, y: bv8, c: bv8)
    requires c <= 1
    ensures (WideDifference(x, y, c) & 0x8000 != 0) == SubBorrows(x, y, c)
  {
    assert WideDifference(x, y, c) == x as bv16 - y as bv16 - c as bv16;
    SignOfDifference(x, y, c);
  }

  lemma SignOfDifference(x: bv8, y: bv8, c: bv8)
    requires c <= 1
    ensures ((x as bv16 - y as bv16 - c as bv16) & 0x8000 != 0) == (x as bv16 < y as bv16 + c as bv16)
  {
  }

  /** Its low byte is the wrapped difference: adding y and c back gives x. */
  lemma WideLowValue(x: bv8, y: bv8, c: bv8)
    requires c <= 1
    ensures SumByte(WideLow(x, y, c) as bv8, y, c) == x
    ensures (WideLow(x, y, c) == 0) == (WideLow(x, y, c) as bv8 == 0)
  {
    WideLowNarrow(x, y, c);
    SubThenAdd(x, y, c);
  }

  /** Subtraction undoes addition on bytes: SumByte is the inverse of the
      wrapped difference. */
  lemma SubThenAdd(x: bv8, y: bv8, c: bv8)
    ensures SumByte(x - y - c, y, c) == x
  {
  }

  /** Narrowed to a byte, the masked wide difference is the byte difference. */
  lemma WideLowNarrow(x: bv8, y: bv8, c: bv8)
    ensures WideLow(x, y, c) as bv8 == x - y - c
  {
    WideLowWidened(x, y, c);
  }

  /** The same, stated on 16-bit words. */
  lemma WideLowWidened(x: bv8, y: bv8, c: bv8)
    ensures WideLow(x, y, c) == (x - y - c) as bv16
  {
    assert WideLow(x, y, c) == (x as bv16 - y as bv16 - c as bv16) & 0xFF;
    LowByteOfDifference(x, y, c);
  }

  lemma LowByteOfDifference(x: bv8, y: bv8, c: bv8)
    ensures (x as bv16 - y as bv16 - c as bv16) & 0xFF == (x - y - c) as bv16
  {
  }

  /** Bit 4 of low ^ y ^ x is the half borrow. */
  lemma WideLowNibble(x: bv8, y: bv8, c: bv8)
    requires c <= 1
    ensures ((WideLow(x, y, c) ^ y as bv16 ^ x as bv16) & 0x10 == 0x10) == SubHalfBorrows(x, y, c)
  {
    if c == 0 {
      SubNibbleTest(x, y);
    } else {
      assert c == 1;
    }
  }

  // ---------------------------------------------------------------------------
  // Outcomes: the value an executor computes and the flags it sets

  /** A computed value of type V with the Z, N, H and C flags it sets. */
  datatype Flagged<V> = Outcome(value: V, z: bool, n: bool, h: bool, c: bool)

  /** The outcome of an 8-bit operation. */
  type Outcome = Flagged<bv8>

  /** Write the value into `dst`, then the four flags. */
  function Commit(m: Machine, dst: ByteReg, o: Outcome): (r: Machine)
    ensures OnlyRegs(r, m, {dst, F})
    ensures r.regs.Get(dst) == o.value
    ensures FlagsAre(r.regs, m.regs, o.z, o.n, o.h, o.c)
  {
    m.(regs := m.regs.Set(dst, o.value).WithFlags(o.z, o.n, o.h, o.c))
  }

  /** Set the four flags only (CP, which discards its difference). */
  function CommitFlags(m: Machine, o: Outcome): (r: Machine)
    ensures OnlyRegs(r, m, {F})
    ensures FlagsAre(r.regs, m.regs, o.z, o.n, o.h, o.c)
  {
    m.(regs := m.regs.WithFlags(o.z, o.n, o.h, o.c))
  }

  /** ADD without carry-in (ADDrr, ADDAn, ADDraa): the wrapped sum; C when
      it came out below x; H from bit 4 of the nibble sum. */
  function AddOutcome(x: bv8, y: bv8): (o: Outcome)
    ensures o.value == SumByte(x, y, 0) && o.z == (o.value == 0) && !o.n
    ensures o.h == AddHalfCarries(x, y, 0) && o.c == AddCarries(x, y, 0)
  {
    AddByteFacts(x, y);
    var result := x + y;
    var hc := ((x & 0xF) + (y & 0xF)) & 0x10 == 0x10;
    Outcome(result, result == 0, false, hc, result < x)
  }

  /** ADC as ADCAn and ADCrr do it: both carries tested on the widened
      operands (Go `int`s there, 16-bit words here), then the byte sum. */
  function AdcOutcome(x: bv8, y: bv8, c: bv8): (o: Outcome)
    requires c <= 1
    ensures o.value == SumByte(x, y, c) && o.z == (o.value == 0) && !o.n
    ensures o.h == AddHalfCarries(x, y, c) && o.c == AddCarries(x, y, c)
  {
    AddCarryIntFacts(x, y, c);
    var carry := (x as bv16 & 0xFF) + (y as bv16 & 0xFF) + c as bv16 > 0xFF;
    var hc := (x as bv16 & 0xF) + (y as bv16 & 0xF) + c as bv16 > 0xF;
    var result := x + (y + c);
    Outcome(result, result == 0, false, hc, carry)
  }

  /** ADC as ADCraa does it: byte sum, then C when it came out below x, which
      misses the carry of x + 0xFF + 1. */
  function AdcWrapOutcome(x: bv8, y: bv8, c: bv8): (o: Outcome)
    requires c <= 1
    ensures o.value == SumByte(x, y, c) && o.z == (o.value == 0) && !o.n
    ensures o.h == AddHalfCarries(x, y, c)
    ensures o.c == (AddCarries(x, y, c) && !(y == 0xFF && c == 1))
  {
    AddCarryByteFacts(x, y, c);
    var result := x + y + c;
    var hc := ((x & 0xF) + (y & 0xF) + (c & 0xF)) & 0x10 == 0x10;
    Outcome(result, result == 0, false, hc, result < x)
  }

  /** SUB without borrow-in (SUBn, SUBaa, CPn, CPaa): the wrapped difference;
      C when it came out above x; H from bit 4 of the nibble difference. */
  function SubOutcome(x: bv8, y: bv8): (o: Outcome)
    ensures SumByte(o.value, y, 0) == x && o.z == (o.value == 0) && o.z == (x == y) && o.n
    ensures o.h == SubHalfBorrows(x, y, 0) && o.c == SubBorrows(x, y, 0)
  {
    SubByteFacts(x, y);
    var result := x - y;
    var hc := ((x & 0xF) - (y & 0xF)) & 0x10 == 0x10;
    Outcome(result, result == 0, true, hc, result > x)
  }

  /** SBC as SBCrr and SBCraa do it: y + c summed in a byte first. The
      borrow out of bit 4 is lost whenever the low nibble of y + c wraps
      (y & 0xF = 0xF with carry-in); the borrow out of bit 8 only when the
      whole byte wraps (y = 0xFF with carry-in). */
  function SbcWrapOutcome(x: bv8, y: bv8, c: bv8): (o: Outcome)
    requires c <= 1
    ensures SumByte(o.value, y, c) == x && o.z == (o.value == 0) && o.n
    ensures o.h == (SubHalfBorrows(x, y, c) && !(y & 0xF == 0xF && c == 1))
    ensures o.c == (SubBorrows(x, y, c) && !(y == 0xFF && c == 1))
  {
    SubCarryByteFacts(x, y, c);
    // sum := y + c; result := x - sum
    Outcome(x - (y + c), x - (y + c) == 0, true,
            ((x & 0xF) - ((y + c) & 0xF)) & 0x10 == 0x10, x - (y + c) > x)
  }

  /** SBC as SBCAn does it, on a signed difference: C from its sign, then
      the low byte, Z, and H from bit 4 of result ^ y ^ x. */
  function SbcWideOutcome(x: bv8, y: bv8, c: bv8): (o: Outcome)
    requires c <= 1
    ensures SumByte(o.value, y, c) == x && o.z == (o.value == 0) && o.n
    ensures o.h == SubHalfBorrows(x, y, c) && o.c == SubBorrows(x, y, c)
  {
    WideBorrow(x, y, c);
    WideLowValue(x, y, c);
    WideLowNibble(x, y, c);
    // result := x - y - c in a wide int; C from its sign, the value and Z
    // from its low byte, H from bit 4 of low ^ y ^ x
    Outcome(WideLow(x, y, c) as bv8, WideLow(x, y, c) == 0, true,
            (WideLow(x, y, c) ^ y as bv16 ^ x as bv16) & 0x10 == 0x10,
            WideDifference(x, y, c) & 0x8000 != 0)
  }

  /** CPr: the flags of x - y; C straight from x < y. */
  function CpOutcome(x: bv8, y: bv8): (o: Outcome)
    ensures o.z == (x == y) && o.n
    ensures o.h == SubHalfBorrows(x, y, 0) && o.c == SubBorrows(x, y, 0)
  {
    SubNibbleTest(x, y);
    var sub := x - y;
    var hc := ((x & 0xF) - (y & 0xF)) & 0x10 == 0x10;
    Outcome(sub, sub == 0, true, hc, x < y)
  }

  /** SUBr: the difference a - y; C compares it with the old y rather than
      with a. */
  function SubrOutcome(a: bv8, y: bv8): (o: Outcome)
    ensures SumByte(o.value, y, 0) == a && o.z == (o.value == 0) && o.n
    ensures o.h == SubHalfBorrows(a, y, 0)
    ensures o.c == (o.value > y)
  {
    SubByteFacts(a, y);
    var hc := ((a & 0xF) - (y & 0xF)) & 0x10 == 0x10;
    var result := a - y;
    Outcome(result, result == 0, true, hc, result > y)
  }

  /** INC r: x + 1, H from the nibble sum, C kept as `carry`. */
  function IncOutcome(x: bv8, carry: bool): (o: Outcome)
    ensures o.value == SumByte(x, 1, 0) && o.z == (o.value == 0) && !o.n
    ensures o.h == AddHalfCarries(x, 1, 0) && o.c == carry
  {
    AddByteFacts(x, 1);
    var hc := ((x & 0xF) + (1 & 0xF)) & 0x10 == 0x10;
    var result := x + 1;
    Outcome(result, result == 0, false, hc, carry)
  }

  /** DEC r: x - 1, H from the nibble difference, C kept as `carry`. */
  function DecOutcome(x: bv8, carry: bool): (o: Outcome)
    ensures SumByte(o.value, 1, 0) == x && o.z == (o.value == 0) && o.n
    ensures o.h == SubHalfBorrows(x, 1, 0) && o.c == carry
  {
    SubByteFacts(x, 1);
    var hc := ((x & 0xF) - (1 & 0xF)) & 0x10 == 0x10;
    var result := x - 1;
    Outcome(result, result == 0, true, hc, carry)
  }

  /** AND (ANDr, ANDn): flags Z010. */
  function AndOutcome(x: bv8, y: bv8): (o: Outcome)
    ensures BitsAnd(o.value, x, y) && o.z == (o.value == 0)
    ensures !o.n && o.h && !o.c
  {
    var result := x & y;
    Outcome(result, result == 0, false, true, false)
  }

  /** Bit i of x | y is set when it is set in x or in y. */
  lemma OrBits(x: bv8, y: bv8)
    ensures BitsOr(x | y, x, y)
  {
    forall i: bv8 | i < 8
      ensures Bit(x | y, i) <==> Bit(x, i) || Bit(y, i)
    {
      var k := i;
      if k < 4 {
        assert k == 0 || k == 1 || k == 2 || k == 3;
      } else {
        assert k == 4 || k == 5 || k == 6 || k == 7;
      }
    }
  }

  /** OR (ORr, ORn): flags Z000. */
  function OrOutcome(x: bv8, y: bv8): (o: Outcome)
    ensures BitsOr(o.value, x, y) && o.z == (o.value == 0)
    ensures !o.n && !o.h && !o.c
  {
    OrBits(x, y);
    var result := x | y;
    Outcome(result, result == 0, false, false, false)
  }

  /** XOR (XORr, XORn, XORaa): flags Z000. */
  function XorOutcome(x: bv8, y: bv8): (o: Outcome)
    ensures BitsXor(o.value, x, y) && o.z == (o.value == 0)
    ensures !o.n && !o.h && !o.c
  {
    var result := x ^ y;
    Outcome(result, result == 0, false, false, false)
  }

  // ---------------------------------------------------------------------------
  // The executors

  /** ADDrr: dst := dst + src; flags Z0HC. */
  function ADDrr(m: Machine, dst: ByteReg, src: ByteReg): (r: Machine)
    ensures OnlyRegs(r, m, {dst, F})
    ensures AddedTo(r.regs, m.regs, dst, m.regs.Get(dst), m.regs.Get(src), 0)
  {
    Commit(m, dst, AddOutcome(m.regs.Get(dst), m.regs.Get(src)))
  }

  /** ADDAn: A := A + the immediate byte; flags Z0HC. */
  function ADDAn(m: Machine): (r: Option<Machine>)
    ensures r.Some? <==> OperandsFit(m.regs.pc, 1)
    ensures r.Some? ==> OnlyRegs(r.value, m, {A, F})
    ensures r.Some? ==> AddedTo(r.value.regs, m.regs, A, m.regs.Get(A), Imm(m, 1), 0)
  {
    var y :- Operand8(m);
    Some(Commit(m, A, AddOutcome(m.regs.Get(A), y)))
  }

  /** ADDraa: dst := dst + the byte at hi:lo; flags Z0HC. */
  function ADDraa(m: Machine, dst: ByteReg, hi: Reg8, lo: Reg8): (r: Machine)
    ensures OnlyRegs(r, m, {dst, F})
    ensures AddedTo(r.regs, m.regs, dst, m.regs.Get(dst), At(m, hi, lo), 0)
  {
    Commit(m, dst, AddOutcome(m.regs.Get(dst), At(m, hi, lo)))
  }

  /** ADCAn: A := A + the immediate byte + carry; flags Z0HC. */
  function ADCAn(m: Machine): (r: Option<Machine>)
    ensures r.Some? <==> OperandsFit(m.regs.pc, 1)
    ensures r.Some? ==> OnlyRegs(r.value, m, {A, F})
    ensures r.Some? ==>
      AddedTo(r.value.regs, m.regs, A, m.regs.Get(A), Imm(m, 1), m.regs.CarryBit())
  {
    var c := m.regs.CarryBit();
    var y :- Operand8(m);
    Some(Commit(m, A, AdcOutcome(m.regs.Get(A), y, c)))
  }

  /** ADCrr: dst := dst + src + carry; flags Z0HC. */
  function ADCrr(m: Machine, dst: ByteReg, src: ByteReg): (r: Machine)
    ensures OnlyRegs(r, m, {dst, F})
    ensures AddedTo(r.regs, m.regs, dst, m.regs.Get(dst), m.regs.Get(src), m.regs.CarryBit())
  {
    Commit(m, dst, AdcOutcome(m.regs.Get(dst), m.regs.Get(src), m.regs.CarryBit()))
  }

  /** ADCraa: dst := dst + the byte at hi:lo + carry; the carry test misses
      a byte of 0xFF added with the carry set. Flags Z0HC. */
  function ADCraa(m: Machine, dst: ByteReg, hi: Reg8, lo: Reg8): (r: Machine)
    ensures OnlyRegs(r, m, {dst, F})
    ensures var x, y, c := m.regs.Get(dst), At(m, hi, lo), m.regs.CarryBit();
      && r.regs.Get(dst) == SumByte(x, y, c)
      && FlagsAre(r.regs, m.regs, r.regs.Get(dst) == 0, false, AddHalfCarries(x, y, c),
                  AddCarries(x, y, c) && !(y == 0xFF && c == 1))
  {
    Commit(m, dst, AdcWrapOutcome(m.regs.Get(dst), At(m, hi, lo), m.regs.CarryBit()))
  }

  /** SUBn: A := A - the immediate byte; flags Z1HC. */
  function SUBn(m: Machine): (r: Option<Machine>)
    ensures r.Some? <==> OperandsFit(m.regs.pc, 1)
    ensures r.Some? ==> OnlyRegs(r.value, m, {A, F})
    ensures r.Some? ==> SubtractedFrom(r.value.regs, m.regs, A, m.regs.Get(A), Imm(m, 1), 0)
  {
    var y :- Operand8(m);
    Some(Commit(m, A, SubOutcome(m.regs.Get(A), y)))
  }

  /** SUBr: the difference A - reg is stored into reg, not into A, and C
      compares it with the old value of reg; flags Z1HC. */
  function SUBr(m: Machine, reg: ByteReg): (r: Machine)
    ensures OnlyRegs(r, m, {reg, F})
    ensures SumByte(r.regs.Get(reg), m.regs.Get(reg), 0) == m.regs.Get(A)
  {
    Commit(m, reg, SubrOutcome(m.regs.Get(A), m.regs.Get(reg)))
  }

  /** SUBr sets the flags of SubrOutcome: Z from the difference, N set, H
      the borrow from bit 4, and C when the difference exceeds the old
      operand. */
  lemma SubrFlags(m: Machine, reg: ByteReg)
    ensures var o := SubrOutcome(m.regs.Get(A), m.regs.Get(reg));
      FlagsAre(SUBr(m, reg).regs, m.regs, o.z, o.n, o.h, o.c)
  {
  }

  /** SUBaa: A := A - the byte at hi:lo; flags Z1HC. */
  function SUBaa(m: Machine, hi: Reg8, lo: Reg8): (r: Machine)
    ensures OnlyRegs(r, m, {A, F})
    ensures SubtractedFrom(r.regs, m.regs, A, m.regs.Get(A), At(m, hi, lo), 0)
  {
    Commit(m, A, SubOutcome(m.regs.Get(A), At(m, hi, lo)))
  }

  /** SBCrr: dst := dst - (src + carry), that sum wrapping in a byte;
      flags Z1HC, the half borrow lost whenever src's low nibble is 0xF with
      carry-in 1, the borrow only when src = 0xFF with carry-in 1. */
  function SBCrr(m: Machine, dst: ByteReg, src: ByteReg): (r: Machine)
    ensures OnlyRegs(r, m, {dst, F})
    ensures var x, y, c := m.regs.Get(dst), m.regs.Get(src), m.regs.CarryBit();
      && SumByte(r.regs.Get(dst), y, c) == x
      && FlagsAre(r.regs, m.regs, r.regs.Get(dst) == 0, true,
                  SubHalfBorrows(x, y, c) && !(y & 0xF == 0xF && c == 1),
                  SubBorrows(x, y, c) && !(y == 0xFF && c == 1))
  {
    Commit(m, dst, SbcWrapOutcome(m.regs.Get(dst), m.regs.Get(src), m.regs.CarryBit()))
  }

  /** SBCAn: A := A - the immediate byte - carry, on ints; flags Z1HC. */
  function SBCAn(m: Machine): (r: Option<Machine>)
    ensures r.Some? <==> OperandsFit(m.regs.pc, 1)
    ensures r.Some? ==> OnlyRegs(r.value, m, {A, F})
    ensures r.Some? ==>
      SubtractedFrom(r.value.regs, m.regs, A, m.regs.Get(A), Imm(m, 1), m.regs.CarryBit())
  {
    var c := m.regs.CarryBit();
    var y :- Operand8(m);
    Some(Commit(m, A, SbcWideOutcome(m.regs.Get(A), y, c)))
  }

  /** SBCraa: dst := dst - (the byte at hi:lo + carry), as SBCrr. */
  function SBCraa(m: Machine, dst: ByteReg, hi: Reg8, lo: Reg8): (r: Machine)
    ensures OnlyRegs(r, m, {dst, F})
    ensures var x, y, c := m.regs.Get(dst), At(m, hi, lo), m.regs.CarryBit();
      && SumByte(r.regs.Get(dst), y, c) == x
      && FlagsAre(r.regs, m.regs, r.regs.Get(dst) == 0, true,
                  SubHalfBorrows(x, y, c) && !(y & 0xF == 0xF && c == 1),
                  SubBorrows(x, y, c) && !(y == 0xFF && c == 1))
  {
    Commit(m, dst, SbcWrapOutcome(m.regs.Get(dst), At(m, hi, lo), m.regs.CarryBit()))
  }

  /** CPr: the flags of A - reg, A unchanged; C set when A < reg. */
  function CPr(m: Machine, reg: ByteReg): (r: Machine)
    ensures OnlyRegs(r, m, {F})
    ensures var x, y := m.regs.Get(A), m.regs.Get(reg);
      FlagsAre(r.regs, m.regs, x == y, true, SubHalfBorrows(x, y, 0), SubBorrows(x, y, 0))
  {
    CommitFlags(m, CpOutcome(m.regs.Get(A), m.regs.Get(reg)))
  }

  /** CPn: the flags of A - the immediate byte, A unchanged. */
  function CPn(m: Machine): (r: Option<Machine>)
    ensures r.Some? <==> OperandsFit(m.regs.pc, 1)
    ensures r.Some? ==> OnlyRegs(r.value, m, {F})
    ensures var x, y := m.regs.Get(A), Imm(m, 1);
      r.Some? ==>
        FlagsAre(r.value.regs, m.regs, x == y, true, SubHalfBorrows(x, y, 0), SubBorrows(x, y, 0))
  {
    var y :- Operand8(m);
    Some(CommitFlags(m, SubOutcome(m.regs.Get(A), y)))
  }

  /** CPaa: the flags of A - the byte at hi:lo, A unchanged. */
  function CPaa(m: Machine, hi: Reg8, lo: Reg8): (r: Machine)
    ensures OnlyRegs(r, m, {F})
    ensures var x, y := m.regs.Get(A), At(m, hi, lo);
      FlagsAre(r.regs, m.regs, x == y, true, SubHalfBorrows(x, y, 0), SubBorrows(x, y, 0))
  {
    CommitFlags(m, SubOutcome(m.regs.Get(A), At(m, hi, lo)))
  }

  /** ANDr: A := A & reg; flags Z010. */
  function ANDr(m: Machine, reg: ByteReg): (r: Machine)
    ensures OnlyRegs(r, m, {A, F})
    ensures BitsAnd(r.regs.Get(A), m.regs.Get(A), m.regs.Get(reg))
    ensures FlagsAre(r.regs, m.regs, r.regs.Get(A) == 0, false, true, false)
  {
    Commit(m, A, AndOutcome(m.regs.Get(A), m.regs.Get(reg)))
  }

  /** ANDn: A := A & the immediate byte; flags Z010. */
  function ANDn(m: Machine): (r: Option<Machine>)
    ensures r.Some? <==> OperandsFit(m.regs.pc, 1)
    ensures r.Some? ==> OnlyRegs(r.value, m, {A, F})
    ensures r.Some? ==> BitsAnd(r.value.regs.Get(A), m.regs.Get(A), Imm(m, 1))
    ensures r.Some? ==> FlagsAre(r.value.regs, m.regs, r.value.regs.Get(A) == 0, false, true, false)
  {
    var y :- Operand8(m);
    Some(Commit(m, A, AndOutcome(m.regs.Get(A), y)))
  }

  /** ANDaa: reads its operand through getValCartAddr with n = 1, an empty
      slice, and indexes it: always a panic. */
  function ANDaa(m: Machine, hi: Reg8, lo: Reg8): (r: Option<Machine>)
    ensures r.None?
  {
    var val := ValCartAddr(m, hi, lo, 1);
    if val.None? || |val.value| == 0 then None   // val[0] is out of range
    else assert false; None
  }

  /** ORr: A := A | reg; flags Z000. */
  function ORr(m: Machine, reg: ByteReg): (r: Machine)
    ensures OnlyRegs(r, m, {A, F})
    ensures BitsOr(r.regs.Get(A), m.regs.Get(A), m.regs.Get(reg))
    ensures FlagsAre(r.regs, m.regs, r.regs.Get(A) == 0, false, false, false)
  {
    Commit(m, A, OrOutcome(m.regs.Get(A), m.regs.Get(reg)))
  }

  /** ORn: A := A | the immediate byte; flags Z000. */
  function ORn(m: Machine): (r: Option<Machine>)
    ensures r.Some? <==> OperandsFit(m.regs.pc, 1)
    ensures r.Some? ==> OnlyRegs(r.value, m, {A, F})
    ensures r.Some? ==> BitsOr(r.value.regs.Get(A), m.regs.Get(A), Imm(m, 1))
    ensures r.Some? ==> FlagsAre(r.value.regs, m.regs, r.value.regs.Get(A) == 0, false, false, false)
  {
    var y :- Operand8(m);
    Some(Commit(m, A, OrOutcome(m.regs.Get(A), y)))
  }

  /** ORaa: A := A | the byte at hi:lo; only Z is updated, N, H and C keep
      their values. */
  function ORaa(m: Machine, hi: Reg8, lo: Reg8): (r: Machine)
    ensures OnlyRegs(r, m, {A, F})
    ensures BitsOr(r.regs.Get(A), m.regs.Get(A), At(m, hi, lo))
    ensures FlagsAre(r.regs, m.regs, r.regs.Get(A) == 0,
                     m.regs.Subtract(), m.regs.HalfCarry(), m.regs.Carry())
  {
    var o := OrOutcome(m.regs.Get(A), At(m, hi, lo));
    Commit(m, A, o.(n := m.regs.Subtract(), h := m.regs.HalfCarry(), c := m.regs.Carry()))
  }

  /** XORr: A := A ^ reg; flags Z000. */
  function XORr(m: Machine, reg: ByteReg): (r: Machine)
    ensures OnlyRegs(r, m, {A, F})
    ensures BitsXor(r.regs.Get(A), m.regs.Get(A), m.regs.Get(reg))
    ensures FlagsAre(r.regs, m.regs, r.regs.Get(A) == 0, false, false, false)
  {
    Commit(m, A, XorOutcome(m.regs.Get(A), m.regs.Get(reg)))
  }

  /** XORn: A := A ^ the immediate byte; flags Z000. */
  function XORn(m: Machine): (r: Option<Machine>)
    ensures r.Some? <==> OperandsFit(m.regs.pc, 1)
    ensures r.Some? ==> OnlyRegs(r.value, m, {A, F})
    ensures r.Some? ==> BitsXor(r.value.regs.Get(A), m.regs.Get(A), Imm(m, 1))
    ensures r.Some? ==> FlagsAre(r.value.regs, m.regs, r.value.regs.Get(A) == 0, false, false, false)
  {
    var y :- Operand8(m);
    Some(Commit(m, A, XorOutcome(m.regs.Get(A), y)))
  }

  /** XORaa: A := A ^ the byte at hi:lo; flags Z000. */
  function XORaa(m: Machine, hi: Reg8, lo: Reg8): (r: Machine)
    ensures OnlyRegs(r, m, {A, F})
    ensures BitsXor(r.regs.Get(A), m.regs.Get(A), At(m, hi, lo))
    ensures FlagsAre(r.regs, m.regs, r.regs.Get(A) == 0, false, false, false)
  {
    Commit(m, A, XorOutcome(m.regs.Get(A), At(m, hi, lo)))
  }

  /** INCr: reg := reg + 1; flags Z0H-, C kept. */
  function INCr(m: Machine, reg: ByteReg): (r: Machine)
    ensures OnlyRegs(r, m, {reg, F})
    ensures var x := m.regs.Get(reg);
      && r.regs.Get(reg) == SumByte(x, 1, 0)
      && FlagsAre(r.regs, m.regs, r.regs.Get(reg) == 0, false, AddHalfCarries(x, 1, 0),
                  m.regs.Carry())
  {
    Commit(m, reg, IncOutcome(m.regs.Get(reg), m.regs.Carry()))
  }

  /** DECr: reg := reg - 1; flags Z1H-, C kept. */
  function DECr(m: Machine, reg: ByteReg): (r: Machine)
    ensures OnlyRegs(r, m, {reg, F})
    ensures var x := m.regs.Get(reg);
      && SumByte(r.regs.Get(reg), 1, 0) == x
      && FlagsAre(r.regs, m.regs, r.regs.Get(reg) == 0, true, SubHalfBorrows(x, 1, 0),
                  m.regs.Carry())
  {
    Commit(m, reg, DecOutcome(m.regs.Get(reg), m.regs.Carry()))
  }

  /** INCaa: reads a one-byte slice through getValCartAddr with n = 2 and
      decodes it as a 16-bit word, which needs two bytes: always a panic. */
  function INCaa(m: Machine, hi: Reg8, lo: Reg8): (r: Option<Machine>)
    ensures r.None?
  {
    var val :- ValCartAddr(m, hi, lo, 2);
    if |val| < 2 then None    // decoding a word needs two bytes
    else assert false; None
  }
}

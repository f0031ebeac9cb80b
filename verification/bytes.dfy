/** Bytes, 16-bit words and the flat 64 KiB memory shared by the CPU and the
    LCD controller. */
module Bytes {

  /** The whole address space: one byte for each of the 2^16 addresses, so
      exactly 64 KiB, with no region-specific side effects. */
  type Mem = bv16 -> bv8

  /** Plain load (the model of `ReadByte` and of direct `Memory[addr]` reads). */
  function Load(m: Mem, addr: bv16): bv8 {
    m(addr)
  }

  /** Plain store (the model of `WriteByte`). */
  function Store(m: Mem, addr: bv16, v: bv8): (r: Mem)
    ensures Load(r, addr) == v
    ensures forall a: bv16 :: a != addr ==> Load(r, a) == Load(m, a)
  {
    a => if a == addr then v else m(a)
  }

  function High(w: bv16): bv8 {
    (w >> 8) as bv8
  }

  function Low(w: bv16): bv8 {
    (w & 0xFF) as bv8
  }

  /** `JoinRegs(hi, lo)`, and `binary.LittleEndian.Uint16([]byte{lo, hi})`. */
  function Word(hi: bv8, lo: bv8): (w: bv16)
    ensures High(w) == hi && Low(w) == lo
  {
    (hi as bv16 << 8) | lo as bv16
  }

  /** `SplitWord` followed by `JoinRegs` gives the word back. */
  lemma WordOfHalves(w: bv16)
    ensures Word(High(w), Low(w)) == w
  {
  }

  /** A byte read as a two's-complement displacement, widened to 16 bits:
      adding it to a word adds e for e <= 127 and subtracts 256 - e otherwise. */
  function SignExtend(e: bv8): (w: bv16)
    ensures Low(w) == e
    ensures High(w) == (if e & 0x80 != 0 then 0xFF else 0)
  {
    if e & 0x80 != 0 then 0xFF00 | e as bv16 else e as bv16
  }

  /** A word plus the signed byte e, as the executors compute it: subtract
      256 - e when e > 127, and add e otherwise. That is adding e read as a
      two's-complement byte. */
  function AddSigned(w: bv16, e: bv8): (r: bv16)
    ensures r == w + SignExtend(e)
  {
    if e > 127 then
      assert SignExtend(e) == 0 - (256 - e as bv16);
      w - (256 - e as bv16)
    else
      w + e as bv16
  }

  /** `b & (1 << i)`: whether bit `i` of `b` is set. */
  predicate Bit(b: bv8, i: bv8)
    requires i < 8
  {
    (b >> i) & 1 == 1
  }
}

# A Dafny model of the Game Boy emulator's CPU executors and LCD controller

This project models two parts of a Go Game Boy (LR35902) emulator:

* **The instruction executors** (`cpu/executors.go`). Each executor is a pure
  function on a `Machine`. A Machine holds the register file (A, B, C, D, E,
  F, H, L, SP, PC), the 64 KiB memory, and the `Jumped` flag, which tells the
  dispatcher not to advance PC.
* **The LCD controller** (`lcd/lcd.go`):
  * the mode state machine (OAM scan, pixel transfer, horizontal blank,
    vertical blank);
  * the STAT, LY and IF register writes;
  * the coincidence check;
  * tile decoding;
  * background and window assembly;
  * the scrolled 160×144 view with the window and the sprites drawn over it.

Some executors panic in Go. An `Option` result of `None` stands for that panic:

* an operand fetch whose slice bounds are out of order (`getOperands` near
  the top of memory);
* `INCaa` and `ANDaa`, whose `getValCartAddr` slice is always too short.

Images hold palette indices (`Cell`) instead of RGBA colours. `Blank` is the
zero colour of a freshly allocated image.

Behaviour of the code is modelled as written, including where it departs from
the LR35902 as documented. Each such departure is stated in the executor's
contract and exhibited by the lemma named after it:

* `SUBr` stores `A - r` into `r` (`AluLaws.SubrKeepsA`, `AluLaws.SubrCarryIsNotBorrow`).
* `LDDaaR` decrements the source register instead of HL (`Loads.StoreDecrementKeepsHL`).
* `RST` writes `PC + 3` into SP instead of pushing it (`Control.RestartDoesNotPush`).
* `RLCA` and `RRCA` drop a bit instead of rotating it (`Rotates.RlcaDropsBitSeven`, `Rotates.RrcaDropsBitZero`).
* `ADDHLrr` takes H from bit 3 (`AluLaws.AddHLHalfCarryFromBitThree`).
* The carry and borrow tests of `ADCraa`, `SBCrr` and `SBCraa` wrap (`AluLaws.AdcWrapMissesCarry`, `AluLaws.SbcWrapMissesBorrow`).
* `ORaa` updates only Z (`AluLaws.OraaKeepsFlags`).
* Vertical blank starts after line 142 (`LcdTiming.ScanLineRun`).
* The alternate tile map is one byte short (`Frame.AlternateMapCornerBlank`).
* A flipped sprite axis runs over 1 to 8 (`Tiles.FlipRange`).

Modules:

* `Wrappers`: Option.
* `Bytes`: memory, words, sign extension, bit tests.
* `Registers`: the register file.
* `CpuState`: the machine, operand fetch, the stack helpers.
* `Alu8` and `Alu16`: 8- and 16-bit arithmetic and logic.
* `Rotates`: rotates and flag operations.
* `Control`: jumps, calls, returns, push and pop.
* `Loads`: loads and stores.
* `AluLaws`: inverse and quirk lemmas.
* `LcdTiming`: the mode state machine.
* `Tiles`: renderTile.
* `Frame`: the background, window, sprites and view.

## Model

| member | source | states |
|---|---|---|
| CpuState.Operands | cpu/executors.go:1513-1519 | The n operand bytes after the opcode, or None exactly when the slice bounds PC+1 and PC+1+n come out of order in 16 bits |
| CpuState.SliceFits | cpu/executors.go:1513-1519 | The slice bounds of getOperands are ordered if and only if the operands fit below the top of memory |
| CpuState.Operand8 | cpu/executors.go:1513-1519 | The one-byte operand exists exactly when it fits, and is the byte after the opcode |
| CpuState.Operand16 | cpu/executors.go:1509-1519 | The two-byte operand exists exactly when it fits, and is the little-endian word after the opcode |
| CpuState.ValCartAddr | cpu/executors.go:1521-1525 | The slice is one byte shorter than asked for: empty for n = 1; for n = 2 it is the byte at hi:lo, and a panic exactly when hi:lo = 0xFFFF |
| CpuState.PushByte | cpu/executors.go:1105-1108 | A push lowers SP by one and leaves the byte at the new SP; no other cell changes |
| CpuState.PopByte | cpu/executors.go:1481-1490 | A pop returns the byte at SP and raises SP by one, changing nothing else |
| CpuState.PopUndoesPush | cpu/executors.go:1105-1108 | A pop right after a push returns the pushed byte and restores every register |
| Bytes.Word | cpu/executors.go:1509-1511 | The word made from two bytes has them as its high and low halves |
| Bytes.SignExtend | cpu/executors.go:1289-1302 | The widened displacement keeps the byte as its low half and fills the high half with the sign bit |
| Alu8.AddByteFacts | cpu/executors.go:304-336 | The wrapped sum is the low byte of the true sum; "result below x" is the carry; bit 4 of the nibble sum is the half carry |
| Alu8.AddCarryByteFacts | cpu/executors.go:442-474 | With a carry-in folded into the wrapped sum, the "result below x" test misses exactly the case y = 0xFF with carry 1 |
| Alu8.AddCarryIntFacts | cpu/executors.go:379-440 | Adding the operand and the carry first still gives the low byte of the true sum |
| Alu8.SubByteFacts | cpu/executors.go:768-800 | The wrapped difference plus y gives x back; "result above x" is the borrow; bit 4 of the nibble difference is the half borrow |
| Alu8.SubCarryByteFacts | cpu/executors.go:876-908 | Folding the borrow-in into y first gives the right value. The half-borrow test misses exactly when y's low nibble is 0xF with carry 1, even if y + c does not wrap; the borrow test misses exactly when y = 0xFF with carry 1 |
| Alu8.WideBorrow | cpu/executors.go:914-948 | The sign of SBCAn's signed difference is exactly the borrow |
| Alu8.WideLowValue | cpu/executors.go:914-948 | SBCAn's masked difference plus y and c gives x back, and is zero exactly when its byte is |
| Alu8.WideLowNibble | cpu/executors.go:914-948 | Bit 4 of result ^ y ^ x is the half borrow |
| Alu8.AddOutcome | cpu/executors.go:304-336 | ADD without carry-in: the sum, Z when it is zero, N clear, H and C the true carries out of bits 3 and 7 |
| Alu8.AdcOutcome | cpu/executors.go:379-440 | ADC as ADCAn and ADCrr compute it: the true carries out of bits 3 and 7 of x + y + c |
| Alu8.AdcWrapOutcome | cpu/executors.go:442-474 | ADC as ADCraa computes it: C is the true carry except when y = 0xFF with carry-in 1 |
| Alu8.SubOutcome | cpu/executors.go:768-800 | SUB: adding y back gives x; Z exactly when x = y; N set; H and C the true borrows |
| Alu8.SbcWrapOutcome | cpu/executors.go:876-908 | SBC as SBCrr and SBCraa compute it: the value is right; H is lost whenever y's low nibble is 0xF with carry-in 1, and C only when y = 0xFF with carry-in 1 |
| Alu8.SbcWideOutcome | cpu/executors.go:914-948 | SBC as SBCAn computes it: the value is right and H and C are the true borrows |
| Alu8.CpOutcome | cpu/executors.go:989-1018 | CPr's flags: Z exactly when x = y, N set, H and C the true borrows |
| Alu8.SubrOutcome | cpu/executors.go:806-836 | SUBr: adding y back gives a, but C compares the difference with y rather than being the borrow |
| Alu8.IncOutcome | cpu/executors.go:86-108 | INC: the value plus one, H the carry out of bit 3, C kept |
| Alu8.DecOutcome | cpu/executors.go:146-169 | DEC: adding one back gives the value, H the borrow from bit 4, C kept |
| Alu8.AndOutcome | cpu/executors.go:606-640 | AND: bit i is set exactly when it is set in both operands; flags Z010 |
| Alu8.OrOutcome | cpu/executors.go:656-690 | OR: bit i is set exactly when it is set in either operand; flags Z000 |
| Alu8.XorOutcome | cpu/executors.go:708-762 | XOR: bit i is set exactly when the operands differ there; flags Z000 |
| Alu8.ADDrr | cpu/executors.go:304-336 | Only dst and F change; dst holds the sum and the flags are the true carries |
| Alu8.ADDAn | cpu/executors.go:342-373 | Succeeds exactly when the operand fits; then only A and F change, A holding A plus the immediate byte |
| Alu8.ADDraa | cpu/executors.go:477-510 | Only dst and F change; dst holds dst plus the byte at hi:lo, with the true carries |
| Alu8.ADCAn | cpu/executors.go:379-410 | Succeeds exactly when the operand fits; A holds A + n + carry with the true carries |
| Alu8.ADCrr | cpu/executors.go:416-440 | dst holds dst + src + carry with the true carries; only dst and F change |
| Alu8.ADCraa | cpu/executors.go:442-474 | dst holds dst + (hi:lo) + carry; C misses the carry of an operand of 0xFF with carry-in set |
| Alu8.SUBn | cpu/executors.go:768-800 | Succeeds exactly when the operand fits; A holds A minus the immediate byte, with the true borrows |
| Alu8.SUBr | cpu/executors.go:806-836 | The difference A - reg goes into reg, and only reg and F change |
| Alu8.SubrFlags | cpu/executors.go:806-836 | SUBr's flags: Z of the difference, N set, H the half borrow, C when the difference exceeds the old reg |
| Alu8.SUBaa | cpu/executors.go:839-870 | A holds A minus the byte at hi:lo, with the true borrows; only A and F change |
| Alu8.SBCrr | cpu/executors.go:876-908 | dst holds dst - src - carry; H is lost whenever src's low nibble is 0xF with carry-in 1, and C when src = 0xFF with carry-in 1 |
| Alu8.SBCAn | cpu/executors.go:914-948 | Succeeds exactly when the operand fits; A holds A - n - carry with the true borrows |
| Alu8.SBCraa | cpu/executors.go:950-983 | As SBCrr with the byte at hi:lo: H is lost whenever its low nibble is 0xF with carry-in 1, and C when it is 0xFF with carry-in 1 |
| Alu8.CPr | cpu/executors.go:989-1018 | Only F changes: Z when A = reg, N set, H and C the borrows of A - reg |
| Alu8.CPn | cpu/executors.go:1024-1060 | Succeeds exactly when the operand fits; only F changes, to the flags of A minus the immediate byte |
| Alu8.CPaa | cpu/executors.go:1066-1101 | Only F changes, to the flags of A minus the byte at hi:lo |
| Alu8.ANDr | cpu/executors.go:606-620 | A holds the bitwise AND of A and reg; flags Z010; only A and F change |
| Alu8.ANDn | cpu/executors.go:625-640 | Succeeds exactly when the operand fits; A holds A AND n; flags Z010 |
| Alu8.ANDaa | cpu/executors.go:643-651 | Always panics: the operand slice it indexes is empty |
| Alu8.ORr | cpu/executors.go:656-670 | A holds the bitwise OR of A and reg; flags Z000 |
| Alu8.ORn | cpu/executors.go:675-690 | Succeeds exactly when the operand fits; A holds A OR n; flags Z000 |
| Alu8.ORaa | cpu/executors.go:695-703 | A holds A OR the byte at hi:lo; only Z is written, and N, H and C keep their values |
| Alu8.XORr | cpu/executors.go:708-722 | A holds the bitwise XOR of A and reg; flags Z000 |
| Alu8.XORn | cpu/executors.go:727-742 | Succeeds exactly when the operand fits; A holds A XOR n; flags Z000 |
| Alu8.XORaa | cpu/executors.go:747-762 | A holds A XOR the byte at hi:lo; flags Z000 |
| Alu8.INCr | cpu/executors.go:86-108 | reg holds reg + 1 with H the carry out of bit 3; N clear; C untouched; only reg and F change |
| Alu8.DECr | cpu/executors.go:146-169 | reg + 1 after the step is the old reg; H the half borrow; N set; C untouched |
| Alu8.INCaa | cpu/executors.go:111-119 | Always panics: a one-byte slice is decoded as a two-byte word |
| Alu16.WordSumCarry | cpu/executors.go:516-543 | A wrapped word sum is below its first operand exactly when it carried out of bit 15 |
| Alu16.WordSumHalfCarry | cpu/executors.go:581-601 | Bit 12 of sum ^ y ^ x is the carry out of bit 11 |
| Alu16.AddHLOutcome | cpu/executors.go:516-543 | ADDHLrr's sum is the wrapped word sum; H is the carry out of bit 3; C the carry out of bit 15 |
| Alu16.AddHLSPOutcome | cpu/executors.go:581-601 | ADDHLSP's sum; H the carry out of bit 11; C the carry out of bit 15 |
| Alu16.ADDHLrr | cpu/executors.go:516-543 | Only H, L and F change: HL holds HL + hi:lo; Z kept; N clear; H from bit 3; C from bit 15 |
| Alu16.ADDHLSP | cpu/executors.go:581-601 | Only H, L and F change: HL holds HL + SP; Z kept; N clear; H from bit 11; C from bit 15 |
| Bytes.AddSigned | cpu/executors.go:549-578 | "Subtract 256 - e when e > 127, else add e", as ADDSPs and LDHLSPs write it here and JRn at lines 1289-1302, is adding e read as a signed byte |
| Alu16.OffsetCarries | cpu/executors.go:549-578 | Bits 8 and 4 of sp ^ e ^ (sp + e) are the carries of the low byte of SP plus e |
| Alu16.AddOffsetToSP | cpu/executors.go:549-578 | ADDSPs once its operand is read: only SP and F change; PC, memory and the other registers are kept. SP's value is stated by Alu16.AddOffsetSum and the flags by Alu16.AddOffsetFlags |
| Alu16.AddOffsetSum | cpu/executors.go:549-578 | ADDSPs leaves SP plus the signed operand in SP |
| Alu16.AddOffsetFlags | cpu/executors.go:549-578 | ADDSPs clears Z and N and sets H and C from the low byte of SP plus e |
| Alu16.ADDSPs | cpu/executors.go:549-578 | Succeeds exactly when the operand fits, with the signed immediate byte as e |
| Alu16.LoadOffsetToHL | cpu/executors.go:36-65 | LDHLSPs once its operand is read: only H, L and F change, SP included among the kept registers. HL's value is stated by Alu16.LoadOffsetSum and the flags by Alu16.LoadOffsetFlags |
| Alu16.LoadOffsetSum | cpu/executors.go:36-65 | LDHLSPs loads SP plus the signed operand into HL |
| Alu16.LoadOffsetFlags | cpu/executors.go:36-65 | LDHLSPs sets the same flags as ADDSPs |
| Alu16.LDHLSPs | cpu/executors.go:36-65 | Succeeds exactly when the operand fits, with the signed immediate byte as e |
| Alu16.INCrr | cpu/executors.go:79-81 | Only hi and lo change, and the pair holds its old value plus one, wrapping at 16 bits |
| Alu16.DECrr | cpu/executors.go:171-175 | Only hi and lo change, and the pair plus one is its old value |
| Alu16.INCSP | cpu/executors.go:126-130 | Only SP changes, to SP plus one, wrapping at 16 bits |
| Alu16.DECSP | cpu/executors.go:132-136 | Only SP changes, and the new SP plus one is the old one |
| AluLaws.IncDecHalfCarry | cpu/executors.go:86-169 | INC sets H exactly when the old low nibble was 0xF, and DEC exactly when it was 0 |
| AluLaws.AddCarryInIntegers | cpu/executors.go:304-440 | The carry the additions report is set exactly when A + n + c exceeds 255 as integers |
| AluLaws.SubInIntegers | cpu/executors.go:768-1060 | The borrow is set exactly when n + c exceeds A as integers, and the half borrow exactly when the low nibbles do |
| AluLaws.DecOutcomeUndoesInc | cpu/executors.go:86-169 | DEC's value undoes INC's |
| AluLaws.SubOutcomeUndoesAdd | cpu/executors.go:304-800 | SUB's value undoes ADD's |
| AluLaws.BorrowUndoesCarry | cpu/executors.go:304-800 | Subtracting y from x + y borrows exactly when the addition carried |
| AluLaws.AdcWithoutCarryIsAdd | cpu/executors.go:379-474 | With the carry clear, both ADC forms compute ADD's outcome |
| AluLaws.SbcWrapWithoutBorrowIsSub | cpu/executors.go:876-983 | With the carry clear, SBCrr's and SBCraa's outcome is SUB's |
| AluLaws.CompareIsSubtraction | cpu/executors.go:989-1018 | CPr's flags are SUB's, although it tests the carry as x < y |
| AluLaws.AdcrrWithoutCarry | cpu/executors.go:416-440 | ADCrr with the carry clear is ADDrr |
| AluLaws.SbcraaWithoutBorrow | cpu/executors.go:950-983 | SBCraa into A with the carry clear is SUBaa |
| AluLaws.CompareSetsSubtractFlags | cpu/executors.go:1066-1101 | CPaa leaves in F exactly what SUBaa would |
| AluLaws.DecUndoesInc | cpu/executors.go:86-169 | DECr after INCr restores the register, and the carry survives both |
| AluLaws.IncUndoesDec | cpu/executors.go:86-169 | INCr after DECr restores the register |
| AluLaws.XorSelfClears | cpu/executors.go:708-722 | XOR A with itself clears A and sets Z |
| AluLaws.SubUndoesAdd | cpu/executors.go:477-870 | SUBaa undoes ADDraa into A, and its borrow is the addition's carry |
| AluLaws.DecrrUndoesIncrr | cpu/executors.go:79-175 | DECrr undoes INCrr on a register pair |
| AluLaws.StackPointerStepsCancel | cpu/executors.go:126-136 | INCSP and DECSP undo each other in either order |
| AluLaws.OffsetLoadMatchesAdd | cpu/executors.go:36-65 | LDHLSPs puts into HL what ADDSPs puts into SP, with the same flags |
| AluLaws.AdcWrapMissesCarry | cpu/executors.go:442-474 | 0x01 + 0xFF + 1 carries, and ADCrr's test sees it, but ADCraa's does not |
| AluLaws.SbcWrapMissesBorrow | cpu/executors.go:876-983 | 0x00 - 0xFF - 1 borrows, and SBCAn sees both borrows, but SBCrr and SBCraa see neither |
| AluLaws.SubrCarryIsNotBorrow | cpu/executors.go:806-836 | SUBr's C is set for 0x10 - 0x01, which does not borrow, and clear for 0x00 - 0x80, which does |
| AluLaws.SubrKeepsA | cpu/executors.go:806-836 | SUBr leaves A alone and writes A - reg into reg |
| AluLaws.OraaKeepsFlags | cpu/executors.go:695-703 | From F = 0x70, ORaa keeps N, H and C set, where ORr with the same operand clears them; both give the same A |
| AluLaws.AddHLHalfCarryFromBitThree | cpu/executors.go:516-543 | 0x0800 + 0x0800 carries out of bit 11 but leaves H clear; 0x0008 + 0x0008 sets H |
| Rotates.RlcaByte | cpu/executors.go:183-196 | Bits 7..1 of RLCA's result are bits 6..0 of A, and bit 0 is bit 6, not bit 7 |
| Rotates.RrcaByte | cpu/executors.go:232-245 | Bits 6..0 of RRCA's result are bits 7..1 of A, and bit 7 is bit 1, not bit 0 |
| Rotates.RlaByte | cpu/executors.go:202-225 | RLA's result is A shifted left with the old carry in bit 0 |
| Rotates.RraByte | cpu/executors.go:251-274 | RRA's result is A shifted right with the old carry in bit 7 |
| Rotates.RotateThroughCarryInverse | cpu/executors.go:202-274 | Rotating right through the carry that came out of a left rotation gives the byte and the carry back |
| Rotates.RlcaDropsBitSeven | cpu/executors.go:183-196 | RLCA turns 0x80 into 0x00 with C clear, where a rotation gives 0x01 with C set |
| Rotates.RrcaDropsBitZero | cpu/executors.go:232-245 | RRCA turns 0x01 into 0x00 with C clear, where a rotation gives 0x80 with C set |
| Rotates.RLCA | cpu/executors.go:183-196 | Only A and F change; Z, N and H clear; C set exactly when any of bits 6..0 of A is set |
| Rotates.RLA | cpu/executors.go:202-225 | Only A and F change; C receives old bit 7; Z, N and H clear |
| Rotates.RRCA | cpu/executors.go:232-245 | Only A and F change; Z, N and H clear; C set exactly when any of bits 7..1 of A is set |
| Rotates.RRA | cpu/executors.go:251-274 | Only A and F change; C receives old bit 0; Z, N and H clear |
| Rotates.RraUndoesRla | cpu/executors.go:202-274 | RRA after RLA restores A and the carry flag |
| Rotates.RotateBackThroughCarry | cpu/executors.go:202-274 | Rotating left through the carry that came out of a right rotation gives the byte and the carry back |
| Rotates.RlaUndoesRra | cpu/executors.go:202-274 | RLA after RRA restores A and the carry flag |
| Rotates.CCF | cpu/executors.go:1393-1402 | Only F changes: C complemented, N and H clear, Z kept |
| Rotates.SCF | cpu/executors.go:1410-1414 | Only F changes: C set, N and H clear, Z kept |
| Rotates.CPL | cpu/executors.go:1418-1422 | Every bit of A is flipped; N and H set; Z and C kept |
| Rotates.ComplementTwice | cpu/executors.go:1393-1422 | CCF twice restores C; CPL twice restores A |
| Control.HoldsMeansFlag | cpu/executors.go:1192-1230 | The Z, NZ, C and NC conditions read exactly the Z and C flags |
| Control.JPaa | cpu/executors.go:1181-1185 | Succeeds exactly when the operand fits, and jumps to the immediate word |
| Control.JPHL | cpu/executors.go:1187-1190 | Jumps to hi:lo |
| Control.JPcc | cpu/executors.go:1192-1230 | When the condition fails nothing changes and 0 extra cycles are reported; otherwise it is JPaa with 4 extra cycles |
| Control.RelativeJump | cpu/executors.go:1289-1302 | The jump JRn and a taken JRcc make: the source's "add e, or subtract 256 - e" on PC + 2 lands on PC + 2 plus e read as a signed byte, with only PC and the jumped flag changed |
| Control.JRn | cpu/executors.go:1289-1302 | Succeeds exactly when the operand fits, and jumps to PC + 2 plus the signed displacement |
| Control.JRcc | cpu/executors.go:1304-1390 | The displacement is read whether or not the jump is taken; when taken, 4 extra cycles and a jump to PC + 2 + e |
| Control.PUSHrr | cpu/executors.go:1105-1108 | r1 is pushed first, then r2, which ends up at the lower address |
| Control.POPrr | cpu/executors.go:1481-1490 | SP goes up by 2; r2 gets the byte at SP and r1 the byte above it; the low nibble of F is cleared; nothing else changes |
| Control.CALLaa | cpu/executors.go:1235-1246 | Succeeds exactly when the operand fits; pushes PC + 3 and jumps to the immediate word as memory reads after the pushes |
| Control.CallPushesReturn | cpu/executors.go:1235-1246 | CALLaa pushes PC + 3, high byte first, and changes no other memory cell or byte register |
| Control.CALLcc | cpu/executors.go:1248-1286 | When the condition fails nothing changes; otherwise it is CALLaa with 12 extra cycles |
| Control.RET | cpu/executors.go:1425-1435 | PC receives the little-endian word at SP; SP goes up by 2; nothing else changes |
| Control.RETcc | cpu/executors.go:1437-1477 | When the condition fails nothing changes; otherwise it is RET with 12 extra cycles |
| Control.RST | cpu/executors.go:278-283 | SP receives PC + 3 and memory is untouched; PC becomes 0x00:imm; Jumped is not set |
| Control.PopTwoAfterPushTwo | cpu/executors.go:1105-1108 | Two pops after two pushes return the bytes in reverse order and restore the registers |
| Control.CallThenReturn | cpu/executors.go:1235-1246 | RET after CALLaa returns to PC + 3 with SP and the byte registers restored |
| Control.ReturnReadsStack | cpu/executors.go:1425-1430 | RET only depends on SP and memory |
| Control.PushThenPop | cpu/executors.go:1105-1108 | POPrr of the pair PUSHrr pushed gives both registers and SP back; only the low nibble of F is lost |
| Control.PushPopSp | cpu/executors.go:1481-1490 | POPrr after PUSHrr restores SP |
| Control.PushPopFirst | cpu/executors.go:1481-1490 | POPrr after PUSHrr restores the first register |
| Control.PushPopSecond | cpu/executors.go:1481-1490 | POPrr after PUSHrr restores the second register |
| Control.PushPopFlags | cpu/executors.go:1481-1490 | POP AF after PUSH AF restores F with its low nibble cleared |
| Control.RestartDoesNotPush | cpu/executors.go:278-283 | RET after RST pops the bytes at PC + 3 and PC + 4, not the address RST came from |
| Control.ReturnPops | cpu/executors.go:1425-1430 | RET pops the word at SP, low byte first |
| Loads.HighPage | cpu/executors.go:1133-1155 | The I/O address has 0xFF as its high byte and the offset as its low byte |
| Loads.LDrr | cpu/executors.go:15-17 | Only `to` changes, and it holds the value of `from` |
| Loads.LDrn | cpu/executors.go:69-73 | Succeeds exactly when the operand fits; only reg changes, to the immediate byte. INCrn at lines 138-141 has the same body and is the same member |
| Loads.LDrrnn | cpu/executors.go:21-24 | Succeeds exactly when the operand fits; only hi and lo change, and the pair holds the immediate word |
| Loads.LDrrr | cpu/executors.go:75-77 | Both halves of the pair receive op |
| Loads.LDSPHL | cpu/executors.go:28-30 | Only SP changes, to HL |
| Loads.LDSPnn | cpu/executors.go:294-298 | Succeeds exactly when the operand fits; only SP changes, to the immediate word |
| Loads.LDaaSP | cpu/executors.go:285-292 | Succeeds exactly when the operand fits, and stores SP at the immediate address |
| Loads.StoreSP | cpu/executors.go:285-292 | LDaaSP once the address is read: registers and the jumped flag are kept. The two bytes written are stated by Loads.StoreSPWritesWord, and that nothing else changes by Loads.StoreSPElsewhere |
| Loads.StoreSPWritesWord | cpu/executors.go:285-292 | The low byte of SP goes to nn and the high byte to nn + 1 |
| Loads.StoreSPElsewhere | cpu/executors.go:285-292 | No other memory cell changes |
| Loads.StoreSPReadsBack | cpu/executors.go:285-292 | The two stored bytes read back, little-endian, as SP |
| Loads.LDraa | cpu/executors.go:1112-1114 | Only reg changes, to the byte at hi:lo |
| Loads.LDaar | cpu/executors.go:1116-1118 | The byte at hi:lo receives reg; no other cell or register changes |
| Loads.LDnnr | cpu/executors.go:1120-1123 | Succeeds exactly when the operand fits; the byte at the immediate address receives reg |
| Loads.LDrnn | cpu/executors.go:1125-1130 | Succeeds exactly when the operand fits; only reg changes, to the byte at the immediate address |
| Loads.LDffrr | cpu/executors.go:1133-1137 | The byte at 0xFF00 + r1 receives r2 |
| Loads.LDrffr | cpu/executors.go:1139-1141 | Only r1 changes, to the byte at 0xFF00 + r2 |
| Loads.LDffnr | cpu/executors.go:1143-1148 | Succeeds exactly when the operand fits; the byte at 0xFF00 + n receives reg |
| Loads.LDrffn | cpu/executors.go:1150-1155 | Succeeds exactly when the operand fits; only reg changes, to the byte at 0xFF00 + n |
| Loads.LDaan | cpu/executors.go:1157-1160 | Succeeds exactly when the operand fits; the byte at hi:lo receives the immediate byte |
| Loads.LDDaaR | cpu/executors.go:1162-1165 | The byte at a1:a2 receives reg; then reg, not the address pair, goes down by one |
| Loads.StoreDecrementKeepsHL | cpu/executors.go:1162-1165 | Through HL, LDDaaR leaves HL where it was and decrements the source register |
| Loads.LDIaaR | cpu/executors.go:1169-1172 | The byte at a1:a2 receives reg, and HL goes up by one |
| Loads.StoreIncrementAdvances | cpu/executors.go:1169-1172 | Through HL, the register lands at the old HL and HL moves on by one |
| Loads.LDIRaa | cpu/executors.go:1176-1179 | Only reg, H and L change |
| Loads.LoadIncrementLoads | cpu/executors.go:1176-1179 | Into a register other than H and L, LDIRaa loads the byte at a1:a2 |
| Loads.LoadIncrementAdvances | cpu/executors.go:1176-1179 | and advances HL by one |
| Loads.DECaa | cpu/executors.go:121-124 | Only the byte at hi:lo changes, and it plus one is its old value |
| Loads.StoreThenLoad | cpu/executors.go:1112-1118 | A byte stored through hi:lo by LDaar is what LDraa loads back |
| Loads.HighPageStoreThenLoad | cpu/executors.go:1133-1141 | A byte stored at 0xFF00 + r1 by LDffrr is what LDrffr reads back with the same offset |
| LcdTiming.ReadPorts | lcd/lcd.go:43-50 | The registers hold the memory bytes at 0xFF40, 0xFF41, 0xFF44, 0xFF45 and 0xFF0F |
| LcdTiming.WritePorts | lcd/lcd.go:365-464 | STAT, LY and IF are written back, and no other memory cell changes |
| LcdTiming.Int16 | lcd/lcd.go:106 | The int16 conversion lies in [-32768, 32767] and agrees with its input modulo 2^16 |
| LcdTiming.NextLine | lcd/lcd.go:374 | `currentLine++` on a uint16 stays below 2^16 and adds one below the top |
| LcdTiming.InitLCD | lcd/lcd.go:54-56 | Only the mode changes, to 2 |
| LcdTiming.LcdEnabled | lcd/lcd.go:68-74 | The result is 0 or 1, and 1 exactly when LCDC bit 7 is set |
| LcdTiming.SetLCDInterrupt | lcd/lcd.go:355-357 | IF bit 1 is set; no other bit and no other register changes |
| LcdTiming.InterruptIfEnabled | lcd/lcd.go:388-390 | Only IF changes, and only its STAT bit, which ends up set exactly when it was set or STAT enables the given source; bits are never cleared |
| LcdTiming.EnterVBlank | lcd/lcd.go:379-390 | Entering vertical blank: LY advances, STAT bits 1:0 show mode 1 with the other STAT bits kept, VBlank is requested, LCDC and LYC are kept |
| LcdTiming.EnterOamScan | lcd/lcd.go:391-399 | Entering OAM scan: STAT bits 1:0 show mode 2 with the other STAT bits kept; LY, LCDC and LYC are kept |
| LcdTiming.EnterTransfer | lcd/lcd.go:427-431 | Entering pixel transfer: only STAT changes, its bits 1:0 showing mode 3 and the rest kept |
| LcdTiming.EnterHBlank | lcd/lcd.go:436-443 | Entering horizontal blank: STAT bits 1:0 show mode 0 with the other STAT bits kept, and bit 3 may request the STAT interrupt |
| LcdTiming.HBlank | lcd/lcd.go:369-405 | Nothing changes before 204 cycles; after them the counter restarts, the line and LY advance, and the mode becomes 1 exactly when the new line is 143, else 2 |
| LcdTiming.VBlank | lcd/lcd.go:406-425 | Nothing changes before 456 cycles; after them the counter restarts and either the line passes 153 and line and LY restart at 0 in mode 2, or the line and LY advance in mode 1 |
| LcdTiming.OamScan | lcd/lcd.go:426-434 | Nothing changes before 80 cycles; after them the counter restarts and the mode becomes 3 on the same line, shown in STAT bits 1:0 |
| LcdTiming.Transfer | lcd/lcd.go:435-446 | Nothing changes before 172 cycles; after them the counter restarts and the mode becomes 0 on the same line, shown in STAT bits 1:0 |
| LcdTiming.ModeStep | lcd/lcd.go:365-446 | The mode switch never writes LCDC or LYC, and whenever it changes anything it restarts the counter in a mode of 0 to 3. The thresholds and successors are stated by LcdTiming.ModeStepTiming |
| LcdTiming.SetLCDStatus | lcd/lcd.go:365-464 | setLCDStatus: the controller state is the mode switch's, LCDC and LYC are kept, and STAT bit 2 ends up set exactly when LY = LYC. The other STAT bits and IF are stated by LcdTiming.StatusStat and LcdTiming.StatusRequests |
| LcdTiming.ModeStepTiming | lcd/lcd.go:365-446 | Each mode does nothing before its 204, 456, 80 or 172 cycles are up, then resets the counter and moves to a mode that follows it |
| LcdTiming.UnknownModeStalls | lcd/lcd.go:366-446 | A mode outside 0 to 3 matches no case, and nothing happens |
| LcdTiming.DisabledResets | lcd/lcd.go:97-104 | With LCDC bit 7 clear the counter, line and LY become 0 and STAT 0x80; the mode and IF are kept |
| LcdTiming.ModeStepStat | lcd/lcd.go:369-446 | The mode switch writes only STAT bits 1:0, and writes the new mode there exactly when the mode changes |
| LcdTiming.Coincidence | lcd/lcd.go:448-463 | STAT bit 2 is set exactly when LY = LYC; the other STAT bits are kept |
| LcdTiming.CoincidenceRequests | lcd/lcd.go:448-463 | The STAT interrupt is requested when LY = LYC and STAT bit 6 enables it |
| LcdTiming.StatusStat | lcd/lcd.go:365-464 | setLCDStatus never writes STAT bits 3 to 7, sets bit 2 exactly when LY = LYC, and writes bits 1:0 only to show a new mode |
| LcdTiming.StatusRequests | lcd/lcd.go:365-464 | setLCDStatus adds only the VBlank request on entering vertical blank and the STAT request for an enabled source |
| LcdTiming.RequestsOnlyAdd | lcd/lcd.go:355-464 | No IF bit is ever cleared, and bits 2 to 7 are never touched |
| LcdTiming.UpdateLCD | lcd/lcd.go:97-109 | LCDC and LYC are never written |
| LcdTiming.Advance | lcd/lcd.go:106 | The counter stays within int16, and nothing else changes |
| LcdTiming.UpdateLCDMem | lcd/lcd.go:97-109 | On the whole memory: the same controller state and registers, and no other memory cell changes |
| LcdTiming.ModeStepSane | lcd/lcd.go:365-446 | Whatever LY holds, the mode switch keeps the controller's reachable states, and vertical blank on lines 143 to 153 |
| LcdTiming.UpdateSane | lcd/lcd.go:97-109 | Whatever LY holds, UpdateLCD keeps the mode in 0 to 3, the line at most 153, and lines past 142 in vertical blank only |
| LcdTiming.UpdateTracks | lcd/lcd.go:97-109 | From a state where LY equals the current line, UpdateLCD keeps it so |
| LcdTiming.EnabledUpdateScans | lcd/lcd.go:365-446 | With the display on, and whatever LY holds, vertical blank only happens on lines 143 to 153, and STAT bits 1:0 keep showing the mode |
| LcdTiming.DisabledInVBlankStopsOnLineZero | lcd/lcd.go:97-104 | Switching the display off in vertical blank leaves line 0 in mode 1, a state the running controller never reaches |
| LcdTiming.RunAppend | lcd/lcd.go:97-109 | A run of a + b is a run of a followed by a run of b |
| LcdTiming.RunSane | lcd/lcd.go:97-109 | Every state reached by repeated UpdateLCD calls from a reachable state is reachable: mode 0 to 3, line at most 153 |
| LcdTiming.RunTracks | lcd/lcd.go:97-109 | Every state reached by repeated UpdateLCD calls keeps LY equal to the current line |
| LcdTiming.EnabledRunScans | lcd/lcd.go:365-446 | With the display on throughout, every state a run reaches keeps vertical blank on lines 143 to 153 only and the other modes on lines 0 to 142, whatever LY holds |
| LcdTiming.PowerOnRunScans | lcd/lcd.go:54-56 | From InitLCD's state with the display on, the line never passes 153, LY follows it, and only vertical blank is on lines 143 to 153 |
| LcdTiming.FrameLength | lcd/lcd.go:369-446 | A frame lasts 154 lines of 456 cycles, 70224 in all |
| LcdTiming.ScanLineRun | lcd/lcd.go:369-446 | A scan line spends 80, 172 and 204 cycles in its three modes; the line after 142 goes to vertical blank |
| LcdTiming.BlankLineRun | lcd/lcd.go:406-423 | A vertical blank line takes 456 cycles, and after line 153 the frame restarts at line 0 in OAM scan |
| LcdTiming.FrameRun | lcd/lcd.go:365-464 | A frame's cycles take the controller from line 0 through 143 scan lines to vertical blank at line 143, and back to the start |
| Tiles.TileAddress | lcd/lcd.go:267-284 | Tile data lies 16-byte aligned within 0x8000 to 0x97F0 |
| Tiles.SignedId | lcd/lcd.go:276-283 | The id read as a signed byte lies in -128 to 127 and agrees with the id modulo 256 |
| Tiles.TileAddressBases | lcd/lcd.go:267-284 | Under LCDC bit 4 or for a sprite, a tile is at 0x8000 + 16·id; otherwise at 0x9000 + 16 times the signed id |
| Tiles.TileAddressesDistinct | lcd/lcd.go:267-284 | Different ids name different tiles under either numbering |
| Tiles.TileBytes | lcd/lcd.go:289 | The 16 bytes of memory from the tile's address |
| Tiles.ColourIndex | lcd/lcd.go:306-312 | The palette index is at most 3; which bits it takes from the two row bytes is stated by Tiles.ColourIndexBits |
| Tiles.ColourIndexBits | lcd/lcd.go:306-312 | Bit s of the row's first byte is the palette index's low bit, and bit s of the second byte its high bit |
| Tiles.Place | lcd/lcd.go:322-340 | A flip bit mirrors its axis as 8 - v; an unflipped axis keeps v |
| Tiles.PixelInRow | lcd/lcd.go:296-350 | The k-th pixel in scan order is pixel k % 8 of row k / 8 |
| Tiles.Tile | lcd/lcd.go:251-353 | No contract: the reference definition of renderTile's result. Tiles.RenderTile proves the loops equal it; Tiles.BackgroundTileLayout, Tiles.SpriteTileOpaque and Tiles.FlipRange state its pixels |
| Tiles.RenderTile | lcd/lcd.go:251-353 | renderTile's loops compute exactly the tile defined from memory |
| Tiles.DecodeTile | lcd/lcd.go:296-350 | The outer loop yields the kept pixels of all 64 in row-major order |
| Tiles.DecodeRow | lcd/lcd.go:302-349 | The inner loop appends the kept pixels of row `line` |
| Tiles.DecodePixel | lcd/lcd.go:307-346 | A pixel's place follows the flip bits, and its colour is the index from bit 7 - pix of both bytes |
| Tiles.Kept | lcd/lcd.go:315-320 | The contract states only that no pixel is added; which pixels are kept is stated by Tiles.KeptAll and Tiles.KeptOpaque |
| Tiles.KeptAll | lcd/lcd.go:315-320 | Without the sprite rule every pixel is kept |
| Tiles.KeptOpaque | lcd/lcd.go:315-320 | Kept pixels come from the input; a sprite keeps exactly its pixels of non-zero index |
| Tiles.BackgroundTileLayout | lcd/lcd.go:296-350 | A background tile is 64 pixels in row-major order, pixel k at (k % 8, k / 8) with the colour its row bytes give |
| Tiles.UnflippedPixel | lcd/lcd.go:334-340 | Without flip bits a pixel lands where it was read |
| Tiles.SpriteTileOpaque | lcd/lcd.go:315-320 | A sprite tile holds exactly its pixels of index 1 to 3 |
| Tiles.FlipRange | lcd/lcd.go:322-340 | A pixel lands in 0 to 7 along an unflipped axis and in 1 to 8 along a flipped one |
| Frame.NewImage | lcd/lcd.go:148 | A fresh image of the given size has every cell Blank |
| Frame.Put | lcd/lcd.go:154 | Set changes exactly the one cell, and only when it lies inside the image |
| Frame.Slice | lcd/lcd.go:86-89 | The slice has to - from bytes, byte k being the memory at from + k |
| Frame.MapSlice | lcd/lcd.go:84-89 | The map starts at 0x9C00 and holds 1023 ids when the alternate map is chosen, else 1024 ids from 0x9800 |
| Frame.TileMap | lcd/lcd.go:79-90 | The map holds 1023 or 1024 ids |
| Frame.TileMapLength | lcd/lcd.go:79-90 | The map holds 1023 ids exactly when the LCDC bit selects 0x9C00 |
| Frame.TileMapIds | lcd/lcd.go:79-90 | Id i of the map is the byte i places after the selected base |
| Frame.MapBit | lcd/lcd.go:131-135 | The window uses LCDC bit 6 and the background bit 3 |
| Frame.PopulateTiles | lcd/lcd.go:127-143 | One tile per id of the map, in order |
| Frame.CornerX | lcd/lcd.go:152 | Tile i's column corner lies in 0 to 248 |
| Frame.CornerY | lcd/lcd.go:153 | Tile i's row corner lies in 0 to 248 |
| Frame.GenerateBackgroundImage | lcd/lcd.go:147-159 | The background is a 256×256 image |
| Frame.PaintTiles | lcd/lcd.go:150-156 | The contract states only the image size; the cells are stated by Frame.PaintTilesPlaces |
| Frame.PaintTilesPlaces | lcd/lcd.go:147-159 | Every background cell shows the pixel of the tile that covers it, or Blank when the list has no such tile |
| Frame.TileCorner | lcd/lcd.go:150-155 | Tile i painted at its corner covers exactly the cells whose tile index is i, at the right offset |
| Frame.PaintSquare | lcd/lcd.go:151-155 | Painting the first m pixels of a row-major tile changes exactly the cells they land on |
| Frame.PopulatedRowMajor | lcd/lcd.go:127-143 | Every tile populateTiles makes is a 64-pixel row-major background tile |
| Frame.BackgroundFromMemory | lcd/lcd.go:112-159 | Background cell (x, y) is the pixel of the tile whose id the map holds at its square, and Blank past the map's end |
| Frame.AlternateMapCornerBlank | lcd/lcd.go:79-90 | With LCDC bit 3 set, the bottom-right 8×8 square of the background is never painted |
| Frame.DefaultMapCoversAll | lcd/lcd.go:79-90 | With the map at 0x9800, every background cell is painted |
| Frame.PlaceBackground | lcd/lcd.go:172-191 | The 160×144 view shows at (w, h) the background at (SCX + w, SCY + h) modulo 256 |
| Frame.PlaceRow | lcd/lcd.go:180-187 | One row of the view comes from row yVal of the background from column SCX on, wrapping at 256; other rows are kept |
| Frame.ByteWraps | lcd/lcd.go:186-189 | A byte counter standing for n modulo 256 still does after `++` |
| Frame.DrawSrc | lcd/lcd.go:205 | draw.Draw keeps the destination's size |
| Frame.WindowCovers | lcd/lcd.go:195-206 | The window at (WX - 7, WY) replaces every view cell right of and below that corner, Blank cells included, and leaves the rest |
| Frame.OamEntry | lcd/lcd.go:225-229 | The 40 entries of OAM lie within 0xFE00 to 0xFE9C, 4 bytes apart |
| Frame.OamSprite | lcd/lcd.go:229-239 | No contract; the corner is stated by Frame.SpriteX and Frame.SpriteY, and the tile's pixels by Frame.SpritesOpaque and the Tiles lemmas |
| Frame.RenderSprites | lcd/lcd.go:223-245 | 40 sprites, sprite i from OAM entry i |
| Frame.SpriteX | lcd/lcd.go:231-237 | Sprite i sits at OAM X - 8 modulo 256, so a sprite partly off the left edge is drawn at the far side |
| Frame.SpriteY | lcd/lcd.go:231-237 | Sprite i sits at OAM Y - 16 modulo 256 |
| Frame.HiddenSpriteWraps | lcd/lcd.go:231-237 | With X = 0 in OAM the sprite is drawn from column 248 |
| Frame.SpritesOpaque | lcd/lcd.go:234 | No OAM sprite has a pixel of index 0 |
| Frame.PaintOpaque | lcd/lcd.go:211-213 | Painting a tile without index-0 pixels leaves the cells it misses and makes the others opaque |
| Frame.DrawSprites | lcd/lcd.go:210-214 | The contract states only the image size; the cells are stated by Frame.DrawSpritesCells and Frame.DrawSpritesTop |
| Frame.DrawSpritesCells | lcd/lcd.go:210-214 | Drawing the sprites leaves the cells no sprite lands on and makes the others opaque |
| Frame.PaintMisses | lcd/lcd.go:211-213 | Painting a tile leaves every cell none of its pixels lands on |
| Frame.PaintLastHit | lcd/lcd.go:211-213 | A painted cell shows the colour of the last pixel of the tile that lands on it |
| Frame.DrawSpritesTop | lcd/lcd.go:210-214 | A cell sprites land on shows the last pixel there of the last sprite, in OAM order, that lands there |
| Frame.LastHitExists | lcd/lcd.go:211-213 | Where a tile lands, some pixel of it lands last |
| Frame.TopSpriteExists | lcd/lcd.go:210-214 | A cell has a topmost sprite pixel exactly when some sprite lands on it |
| Frame.TopSpriteUnique | lcd/lcd.go:210-214 | A cell has at most one topmost sprite pixel |
| Frame.PlaceView | lcd/lcd.go:166-218 | Where no sprite lands, the view shows the window (when on, right of WX - 7 and below WY) or the scrolled background; where one lands, the colour (1 to 3) of the last pixel there of the last sprite in OAM order that lands there |
| Frame.Windowed | lcd/lcd.go:195-206 | The contract states only the image size; the cells are stated by Frame.WindowCovers and Frame.WindowedCell |
| Frame.WindowedCell | lcd/lcd.go:195-206 | One view cell after the window is drawn over the scrolled background |
| Frame.OverlayCell | lcd/lcd.go:195-214 | One view cell after the window and the sprites: the underlay where no sprite lands, else the topmost sprite pixel's colour |
| Frame.DrawFrame | lcd/lcd.go:112-120 | The frame is placeView's view of the background built from the LCDC bit 3 map, with the topmost sprite pixel's colour on every sprite cell |

## Left out

- The MMU is not part of this model. Memory is a flat map of 65536 bytes with plain loads and stores, and no bank switching, echo RAM or write side effects.
- The register helpers are not part of this model either. Each is assumed to do what its name says:
  - `pushByteToStack` and `popByteFromStack`: pre-decrement push and post-increment pop.
  - `JoinRegs` and `SplitWord`: hi:lo joining and splitting.
  - `getCarry`: C as bit 4 of F, read as 0 or 1.
  - `getZero`: Z as bit 7 of F, read as 0 or 1.
  - The flag setters: each sets or clears its one bit of F and leaves the others.
  - `writePair(hi, lo, b)`: the two-byte slice b is little-endian, so `b[0]` goes to lo and `b[1]` to hi. LDrrnn's "the pair holds the immediate word" rests on this order. LDrrr passes the same byte twice, so there the order does not matter.
  - `incrementPair(hi, lo, 1)`: hi:lo plus one, wrapping at 16 bits.
  - `incrementHL(1)`: HL plus one, wrapping at 16 bits.
  - `incrementPC(2)`: PC plus two, wrapping at 16 bits.
- The 8-bit ALU executors take a byte register other than F (`ByteReg`). No opcode passes F to them. POPrr and the loads accept F.
- Go's pointer arguments become register designators. Two pointers to the same register are modelled as the same designator, and writes happen in source order.
- The slice returned by `getOperands` and `getValCartAddr` aliases memory. JPaa, CALLaa and LDSPnn store that slice into PC or SP, so in Go the register then shares its bytes with memory until it is next replaced. The model copies the two bytes instead: a later in-place change to that PC or SP does not reach memory, and a later memory write does not reach the register.
- CB dispatch (`CB`), the opcode table, the instruction loop, interrupt servicing and the timer are left out: they live outside the executors.
- DAA, EI and DI are stubs in the source, and their bodies are empty, so they are not modelled. RETI is modelled as RET, because its interrupt-enable step is such a stub.
- `sliceToInt` is folded into `Imm16` and `Operand16`.
- Cycle counts returned by the conditional executors are modelled (`Branch.extra`). The base cycle counts come from the opcode table, which is left out.
- The RGBA palette is replaced by palette indices 0 to 3. `Blank` stands for the zero RGBA value of a fresh image, which differs from palette colour 0.
- `draw.Draw` is modelled as a clipped copy with `draw.Src`, and image `Set` as a one-cell update that ignores points outside the image. Image bounds with a non-zero minimum never occur.
- The `screen` parameter of UpdateLCD and setLCDStatus is never used and is dropped. So is the `View` field assignment at the end of placeView: the view is the methods' result.
- renderTile is only ever called with an id from a byte (`int(tileID)`), so its id is required to be below 256.
- The mode is a `nat`. The source's `uint8` only ever holds 0 to 3, and the model shows that a mode above 3 stalls.
- Tiles.TileAddress: states the range and alignment of the address. The exact address per numbering is stated by Tiles.TileAddressBases.
- Frame.TileMap: states only the two possible lengths. Which length, and the ids, are stated by Frame.TileMapLength and Frame.TileMapIds.
- Frame.GenerateBackgroundImage: states only the size. Its cells are stated by Frame.PaintTilesPlaces and Frame.BackgroundFromMemory.
- Frame.DrawSrc: states only the size. Its cells are stated by Frame.WindowCovers.
- Frame.PaintTiles: states only the size. Its cells are stated by Frame.PaintTilesPlaces.
- Frame.DrawSprites: states only the size. Its cells are stated by Frame.DrawSpritesCells and Frame.DrawSpritesTop.
- Frame.Windowed: states only the size. Its cells are stated by Frame.WindowCovers and Frame.WindowedCell.
- Frame.OamSprite: has no contract. Its corner is stated by Frame.SpriteX and Frame.SpriteY, and its pixels by Frame.SpritesOpaque.
- Tiles.Kept: states only that no pixel is added. Which pixels are kept is stated by Tiles.KeptAll and Tiles.KeptOpaque.
- Tiles.Tile: has no contract, because it is the reference definition the loops of renderTile are proved equal to (Tiles.RenderTile).
- Tiles.ColourIndex: states only the range 0 to 3. The bits it takes are stated by Tiles.ColourIndexBits.
- Alu16.AddOffsetToSP: states the frame only. SP's value and the flags are stated by Alu16.AddOffsetSum and Alu16.AddOffsetFlags.
- Alu16.LoadOffsetToHL: states the frame only. HL's value and the flags are stated by Alu16.LoadOffsetSum and Alu16.LoadOffsetFlags.
- Loads.StoreSP: states the frame only. The bytes written are stated by Loads.StoreSPWritesWord and Loads.StoreSPElsewhere.
- LcdTiming.UpdateLCD: states only that LCDC and LYC are never written. The disabled branch is stated by LcdTiming.DisabledResets, and the enabled one by LcdTiming.UpdateSane, LcdTiming.EnabledUpdateScans and LcdTiming.UpdateTracks.
- Loads.LDIRaa: states the frame only. The loaded value and the HL step are stated by Loads.LoadIncrementLoads and Loads.LoadIncrementAdvances, for a target other than H and L.
- Alu16.INCrr and Alu16.DECrr: the pair value is stated only for two different registers, which is how every opcode calls them.
- Alu8.SUBr: the flags are stated by Alu8.SubrFlags, not in its own contract.
- `SUBr` with A as its operand, and the ADD and SUB laws for general destinations, are left out: only the A forms are proved (AluLaws.SubUndoesAdd, AluLaws.SubrKeepsA).
- SBCAn with the carry clear is not proved equal to SUBn: the signed 16-bit form is too costly for the solver when composed with SUB's outcome. Each is proved against the same reference borrows instead.

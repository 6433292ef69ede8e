/** The register numbers of asm8086.py.

    Byte registers are 0x00 .. 0x07, the high half of AX .. BX being its low
    half with bit 0x04 set. Word registers are 0x08 .. 0x0F. The numbers are
    the 8086's own register field (0 .. 7) with bit 0x08 marking the word
    registers, so `0xB0 | r` is the right `MOV r, imm` opcode for both kinds. */
module Registers {
  import opened Encoding

  /** A register number as the assembler's constants give them. */
  type Reg = r: nat | r < 16

  const AL: Reg := 0x00
  const CL: Reg := 0x01
  const DL: Reg := 0x02
  const BL: Reg := 0x03
  const AH: Reg := BitOr(AL, 0x04)
  const CH: Reg := BitOr(CL, 0x04)
  const DH: Reg := BitOr(DL, 0x04)
  const BH: Reg := BitOr(BL, 0x04)

  const AX: Reg := 0x08
  const CX: Reg := 0x09
  const DX: Reg := 0x0A
  const BX: Reg := 0x0B
  const SP: Reg := 0x0C
  const BP: Reg := 0x0D
  const SI: Reg := 0x0E
  const DI: Reg := 0x0F

  predicate IsByteReg(r: Reg) { r < 0x08 }

  predicate IsWordReg(r: Reg) { 0x08 <= r }

  /** Each high byte register is its low half plus 4, and the two register
      spaces are disjoint: every byte register is below every word register. */
  lemma RegisterSpaces()
    ensures AH == 0x04 && CH == 0x05 && DH == 0x06 && BH == 0x07
    ensures AH == AL + 4 && CH == CL + 4 && DH == DL + 4 && BH == BL + 4
    ensures forall r: Reg :: IsByteReg(r) != IsWordReg(r)
    ensures IsByteReg(AL) && IsByteReg(CL) && IsByteReg(DL) && IsByteReg(BL)
    ensures IsByteReg(AH) && IsByteReg(CH) && IsByteReg(DH) && IsByteReg(BH)
    ensures IsWordReg(AX) && IsWordReg(CX) && IsWordReg(DX) && IsWordReg(BX)
    ensures IsWordReg(SP) && IsWordReg(BP) && IsWordReg(SI) && IsWordReg(DI)
  {
  }
}

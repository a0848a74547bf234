// The virtual ISA shared by the golden SystemC model and the HLS port
// (models/systemc/src/common/types.h, hls/src/common/hls_types.h).

/** Machine words, opcodes and instructions of the virtual ISA. */
module Isa {

  type Word = bv32

  // A register number; 32 registers serve exactly these.
  type Reg = r: int | 0 <= r < REGS_PER_THREAD

  const THREADS_PER_WARP := 32
  const REGS_PER_THREAD := 32

  datatype Opcode =
    | ADD | SUB | AND | OR | XOR | SLT
    | FADD | FMUL
    | ADDI | LUI
    | LW | SW
    | BEQ | BNE | VBRANCH | VJOIN
    | VADD | VSUB | VMUL | VFMADD
    | VFADD | VFSUB | VFMUL | VFFMADD
    | JAL | JALR
    | BARRIER
    | HALT
  {
    // Opcode values 0x40..0x5F.
    predicate IsVector() {
      VADD? || VSUB? || VMUL? || VFMADD? || VFADD? || VFSUB? || VFMUL? || VFFMADD?
    }

    // Opcode values 0x20..0x2F.
    predicate IsMemory() {
      LW? || SW?
    }
  }

  /** `imm` holds the bits of a signed 32-bit immediate. */
  datatype Instruction = Instruction(opcode: Opcode, rd: Reg, rs1: Reg, rs2: Reg, imm: Word)

  // ----- Word arithmetic, modulo 2^32 -----

  function Sum(a: Word, b: Word): Word { a + b }
  function Difference(a: Word, b: Word): Word { a - b }
  function BitAnd(a: Word, b: Word): Word { a & b }
  function BitOr(a: Word, b: Word): Word { a | b }
  function BitXor(a: Word, b: Word): Word { a ^ b }
  function Upper(imm: Word): Word { imm << 12 }

  /** Signed 32-bit comparison of two words. */
  predicate SignedLess(a: Word, b: Word) {
    (a ^ 0x8000_0000) < (b ^ 0x8000_0000)
  }

  // Signed 12-bit range, -2048 <= imm <= 2047, on the bits of a signed word.
  predicate Fits12(imm: Word) {
    imm & 0xFFFF_F800 == 0 || imm & 0xFFFF_F800 == 0xFFFF_F800
  }

  /** Word multiplication and single-precision arithmetic on register bits; both
      models use the same ones, and every result below holds for any choice. */
  datatype Ops = Ops(
    mul: (Word, Word) -> Word,
    fadd: (Word, Word) -> Word,
    fsub: (Word, Word) -> Word,
    fmul: (Word, Word) -> Word)
}

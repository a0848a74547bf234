// The second decoder, `decodeRV32` (models/systemc/integration/riscv_isa.h:66-296),
// beside the hardware's.

module Decoders {
  import opened Isa
  import opened Codec

  datatype RvOp =
    | RV_ADD | RV_SUB | RV_SLL | RV_SLT | RV_SLTU | RV_XOR | RV_SRL | RV_SRA | RV_OR | RV_AND
    | RV_MUL | RV_MULH | RV_MULHSU | RV_MULHU | RV_DIV | RV_DIVU | RV_REM | RV_REMU
    | RV_ADDI | RV_SLTI | RV_SLTIU | RV_XORI | RV_ORI | RV_ANDI | RV_SLLI | RV_SRLI | RV_SRAI
    | RV_LB | RV_LH | RV_LW | RV_LBU | RV_LHU | RV_JALR | RV_SB | RV_SH | RV_SW
    | RV_BEQ | RV_BNE | RV_BLT | RV_BGE | RV_BLTU | RV_BGEU | RV_LUI | RV_AUIPC | RV_JAL
    | RV_ECALL | RV_EBREAK | RV_FENCE | RV_BAR_SYNC
    | RV_FLW | RV_FSW | RV_FADD | RV_FSUB | RV_FMUL | RV_FDIV | RV_FSQRT
    | RV_FMADD | RV_FMSUB | RV_FNMADD | RV_FNMSUB | RV_FEQ | RV_FLT | RV_FLE
    | RV_FCVT_W_S | RV_FCVT_WU_S | RV_FCVT_S_W | RV_FCVT_S_WU | RV_FMV_X_W | RV_FMV_W_X
    | RV_UNKNOWN

  datatype RvDecoded = RvDecoded(op: RvOp, rd: Reg, rs1: Reg, rs2: Reg, imm: Word, rs3: Reg)

  function RvMul(f3: Funct3): RvOp {
    if f3 == 0 then RV_MUL else if f3 == 1 then RV_MULH else if f3 == 2 then RV_MULHSU else if f3 == 3 then RV_MULHU
    else if f3 == 4 then RV_DIV else if f3 == 5 then RV_DIVU else if f3 == 6 then RV_REM else RV_REMU
  }

  function RvReg(f3: Funct3, f7: Funct7): RvOp {
    if f7 == 1 then RvMul(f3)
    else if f3 == 0 then (if f7 == 0x20 then RV_SUB else RV_ADD)
    else if f3 == 1 then RV_SLL else if f3 == 2 then RV_SLT else if f3 == 3 then RV_SLTU else if f3 == 4 then RV_XOR
    else if f3 == 5 then (if f7 == 0x20 then RV_SRA else RV_SRL)
    else if f3 == 6 then RV_OR else RV_AND
  }

  function RvImm(f3: Funct3, f7: Funct7): RvOp {
    if f3 == 0 then RV_ADDI else if f3 == 1 then RV_SLLI else if f3 == 2 then RV_SLTI else if f3 == 3 then RV_SLTIU
    else if f3 == 4 then RV_XORI else if f3 == 5 then (if f7 == 0x20 then RV_SRAI else RV_SRLI)
    else if f3 == 6 then RV_ORI else RV_ANDI
  }

  function RvLoad(f3: Funct3): RvOp {
    if f3 == 0 then RV_LB else if f3 == 1 then RV_LH else if f3 == 2 then RV_LW else if f3 == 4 then RV_LBU
    else if f3 == 5 then RV_LHU else RV_UNKNOWN
  }

  function RvStore(f3: Funct3): RvOp {
    if f3 == 0 then RV_SB else if f3 == 1 then RV_SH else if f3 == 2 then RV_SW else RV_UNKNOWN
  }

  function RvBranch(f3: Funct3): RvOp {
    if f3 == 0 then RV_BEQ else if f3 == 1 then RV_BNE else if f3 == 4 then RV_BLT else if f3 == 5 then RV_BGE
    else if f3 == 6 then RV_BLTU else if f3 == 7 then RV_BGEU else RV_UNKNOWN
  }

  function RvFloat(f3: Funct3, f7: Funct7, rs2: Reg): RvOp {
    if f7 == 0x00 then RV_FADD else if f7 == 0x04 then RV_FSUB else if f7 == 0x08 then RV_FMUL else if f7 == 0x0C then RV_FDIV
    else if f7 == 0x2C then RV_FSQRT
    else if f7 == 0x50 then (if f3 == 0 then RV_FLE else if f3 == 1 then RV_FLT else if f3 == 2 then RV_FEQ else RV_UNKNOWN)
    else if f7 == 0x60 then (if rs2 == 0 then RV_FCVT_W_S else RV_FCVT_WU_S)
    else if f7 == 0x68 then (if rs2 == 0 then RV_FCVT_S_W else RV_FCVT_S_WU)
    else if f7 == 0x70 then (if f3 == 0 then RV_FMV_X_W else RV_UNKNOWN)
    else if f7 == 0x78 then (if f3 == 0 then RV_FMV_W_X else RV_UNKNOWN)
    else RV_UNKNOWN
  }

  // Major opcodes the hardware decoder does not tell apart. `format` holds bits 26..25.
  function RvOther(opc: Word, f3: Funct3, format: Word, top: Word): RvOp {
    if opc == 0x17 then RV_AUIPC
    else if opc == 0x73 then (if top == 0 then RV_ECALL else if top == 1 then RV_EBREAK else RV_FENCE)
    else if opc == 0x0F then RV_FENCE
    else if opc == 0x07 && f3 == 2 then RV_FLW
    else if opc == 0x27 && f3 == 2 then RV_FSW
    else if opc == 0x43 && format == 0 then RV_FMADD
    else if opc == 0x47 && format == 0 then RV_FMSUB
    else if opc == 0x4B && format == 0 then RV_FNMSUB
    else if opc == 0x4F && format == 0 then RV_FNMADD
    else RV_UNKNOWN
  }

  function FormatBits(w: Word): Word { (w >> 25) & 3 }
  function Rs3Bits(w: Word): (b: Word) ensures b < 32 { (w >> 27) & 0x1F }

  // The fused operations name a third source.
  function RvThird(w: Word): Reg {
    var opc := OpcBits(w);
    if opc == 0x43 || opc == 0x47 || opc == 0x4B || opc == 0x4F then Number5(Rs3Bits(w)) else 0
  }

  function ImmUpper(w: Word): Word { w & 0xFFFF_F000 }

  function RvOpOf(w: Word, f: Fields): RvOp {
    if f.major.OP? then RvReg(f.f3, f.f7)
    else if f.major.OP_IMM? then RvImm(f.f3, f.f7)
    else if f.major.LOAD_OP? then RvLoad(f.f3)
    else if f.major.JALR_OP? then RV_JALR
    else if f.major.STORE_OP? then RvStore(f.f3)
    else if f.major.BRANCH_OP? then RvBranch(f.f3)
    else if f.major.LUI_OP? then RV_LUI
    else if f.major.JAL_OP? then RV_JAL
    else if f.major.CUSTOM0? then (if f.f3 == 0 && f.rd == 0 && f.rs1 == 0 then RV_BAR_SYNC else RV_UNKNOWN)
    else if f.major.OP_FP? then RvFloat(f.f3, f.f7, f.rs2)
    else RvOther(OpcBits(w), f.f3, FormatBits(w), w >> 20)
  }

  function RvImmOf(w: Word, f: Fields): Word {
    if f.major.OP_IMM? then (if f.f3 == 1 || f.f3 == 5 then Bits5(f.rs2) else f.immI)
    else if f.major.LOAD_OP? || f.major.JALR_OP? then f.immI
    else if f.major.STORE_OP? then f.immS
    else if f.major.BRANCH_OP? then f.immB
    else if f.major.LUI_OP? then ImmUpper(w)
    else if f.major.JAL_OP? then f.immJ
    else if f.major.CUSTOM0? then (if f.f3 == 0 && f.rd == 0 && f.rs1 == 0 then w >> 20 else 0)
    else if OpcBits(w) == 0x17 then ImmUpper(w)
    else if OpcBits(w) == 0x07 then f.immI
    else if OpcBits(w) == 0x27 then f.immS
    else 0
  }

  /** `decodeRV32`. */
  function DecodeRv(w: Word): RvDecoded {
    var f := FieldsOf(w);
    if w == 0 then RvDecoded(RV_UNKNOWN, 0, 0, 0, 0, 0) else RvDecoded(RvOpOf(w, f), f.rd, f.rs1, f.rs2, RvImmOf(w, f), RvThird(w))
  }

  // ----- Agreement -----

  /** The 14 operations both decoders have. */
  function SharedOp(op: Opcode): RvOp {
    if op.ADD? then RV_ADD else if op.SUB? then RV_SUB else if op.AND? then RV_AND else if op.OR? then RV_OR
    else if op.XOR? then RV_XOR else if op.SLT? then RV_SLT else if op.ADDI? then RV_ADDI else if op.LUI? then RV_LUI
    else if op.LW? then RV_LW else if op.SW? then RV_SW else if op.BEQ? then RV_BEQ else if op.BNE? then RV_BNE
    else if op.JAL? then RV_JAL else if op.JALR? then RV_JALR else RV_UNKNOWN
  }

  /** Same operation, and the same value for every operand that operation has. */
  predicate SameReading(h: Instruction, r: RvDecoded) {
    var format := FormatOf(h.opcode);
    && r.op != RV_UNKNOWN && r.op == SharedOp(h.opcode)
    && (format.RType? || format.IType? || format.UType? || format.JType? ==> r.rd == h.rd)
    && (format.RType? || format.IType? || format.SType? || format.BType? ==> r.rs1 == h.rs1)
    && (format.RType? || format.SType? || format.BType? ==> r.rs2 == h.rs2)
    && (format.UType? ==> r.imm == Upper(h.imm))
    && (format.IType? || format.SType? || format.BType? || format.JType? ==> r.imm == h.imm)
  }

  /** Encodings of the shared operations; the funct7 values that RV32M and the
      remaining operations use are what sets them apart. */
  predicate SharedEncoding(f: Fields) {
    if f.major.OP? then f.f7 != 1 && (f.f3 == 0 || f.f3 == 2 || f.f3 == 4 || f.f3 == 6 || f.f3 == 7)
    else if f.major.OP_IMM? then f.f3 == 0
    else if f.major.LOAD_OP? || f.major.STORE_OP? then f.f3 == 2
    else if f.major.BRANCH_OP? then f.f3 == 0 || f.f3 == 1
    else f.major.LUI_OP? || f.major.JAL_OP? || f.major.JALR_OP?
  }

  lemma ZeroWord(w: Word)
    requires w == 0
    ensures FieldsOf(w).major.OTHER?
  {
  }

  predicate ReadAlike(w: Word, f: Fields) {
    SameReading(Assemble(f), RvDecoded(RvOpOf(w, f), f.rd, f.rs1, f.rs2, RvImmOf(w, f), RvThird(w)))
  }

  lemma ReadingOfFields(w: Word, f: Fields)
    requires ImmUpper(w) == Upper(f.immU)
    ensures ReadAlike(w, f) <==> SharedEncoding(f)
  {
    hide *;
    if f.major.OP? {
      ReadingOfOp(w, f);
    } else if f.major.OP_IMM? {
      ReadingOfOpImm(w, f);
    } else if f.major.LOAD_OP? {
      ReadingOfLoad(w, f);
    } else if f.major.STORE_OP? {
      ReadingOfStore(w, f);
    } else if f.major.BRANCH_OP? {
      ReadingOfBranch(w, f);
    } else if f.major.LUI_OP? {
      ReadingOfLui(w, f);
    } else if f.major.JAL_OP? {
      ReadingOfJal(w, f);
    } else if f.major.JALR_OP? {
      ReadingOfJalr(w, f);
    } else {
      ReadingOfOthers(w, f);
    }
  }

  lemma OpNames(f3: Funct3, f7: Funct7)
    ensures var op := SelectOp(f3, f7); op.ADD? || op.SUB? || op.AND? || op.OR? || op.XOR? || op.SLT?
    ensures RvReg(f3, f7) != RV_UNKNOWN
    ensures RvReg(f3, f7) == SharedOp(SelectOp(f3, f7)) <==> f7 != 1 && (f3 == 0 || f3 == 2 || f3 == 4 || f3 == 6 || f3 == 7)
  {
  }

  lemma ReadingOfOp(w: Word, f: Fields)
    requires f.major.OP?
    ensures ReadAlike(w, f) <==> SharedEncoding(f)
  {
    hide Upper, ImmUpper, OpcBits, FormatBits, RvThird, Bits5, RvOther, RvFloat, SelectCustom0, SelectFp;
    hide SelectCustom1, SameReading, RvImmOf;
    hide SelectOp, RvReg, SharedOp;
    OpNames(f.f3, f.f7);
    ReadWhen(Instruction(SelectOp(f.f3, f.f7), f.rd, f.rs1, f.rs2, 0),
             RvDecoded(RvOpOf(w, f), f.rd, f.rs1, f.rs2, RvImmOf(w, f), RvThird(w)));
  }

  lemma ReadingOfOpImm(w: Word, f: Fields)
    requires f.major.OP_IMM?
    ensures ReadAlike(w, f) <==> SharedEncoding(f)
  {
    hide Upper, ImmUpper, OpcBits, FormatBits, RvThird, Bits5, RvOther, RvFloat, SelectCustom0, SelectFp;
    hide SelectCustom1, SameReading;
    ReadWhen(Instruction(ADDI, f.rd, f.rs1, 0, f.immI), RvDecoded(RvOpOf(w, f), f.rd, f.rs1, f.rs2, RvImmOf(w, f), RvThird(w)));
  }

  lemma ReadingOfLoad(w: Word, f: Fields)
    requires f.major.LOAD_OP?
    ensures ReadAlike(w, f) <==> SharedEncoding(f)
  {
    hide Upper, ImmUpper, OpcBits, FormatBits, RvThird, Bits5, RvOther, RvFloat, SelectCustom0, SelectFp;
    hide SelectCustom1, SelectOp, RvReg, RvImm, SameReading;
    ReadWhen(Instruction(LW, f.rd, f.rs1, 0, f.immI), RvDecoded(RvOpOf(w, f), f.rd, f.rs1, f.rs2, RvImmOf(w, f), RvThird(w)));
  }

  lemma ReadingOfStore(w: Word, f: Fields)
    requires f.major.STORE_OP?
    ensures ReadAlike(w, f) <==> SharedEncoding(f)
  {
    hide Upper, ImmUpper, OpcBits, FormatBits, RvThird, Bits5, RvOther, RvFloat, SelectCustom0, SelectFp;
    hide SelectCustom1, SelectOp, RvReg, RvImm, SameReading;
    ReadWhen(Instruction(SW, 0, f.rs1, f.rs2, f.immS), RvDecoded(RvOpOf(w, f), f.rd, f.rs1, f.rs2, RvImmOf(w, f), RvThird(w)));
  }

  lemma ReadingOfBranch(w: Word, f: Fields)
    requires f.major.BRANCH_OP?
    ensures ReadAlike(w, f) <==> SharedEncoding(f)
  {
    hide Upper, ImmUpper, OpcBits, FormatBits, RvThird, Bits5, RvOther, RvFloat, SelectCustom0, SelectFp;
    hide SelectCustom1, SelectOp, RvReg, RvImm, SameReading;
    ReadWhen(Instruction(if f.f3 == 0 then BEQ else BNE, 0, f.rs1, f.rs2, f.immB),
             RvDecoded(RvOpOf(w, f), f.rd, f.rs1, f.rs2, RvImmOf(w, f), RvThird(w)));
  }

  lemma ReadingOfLui(w: Word, f: Fields)
    requires f.major.LUI_OP? && ImmUpper(w) == Upper(f.immU)
    ensures ReadAlike(w, f) <==> SharedEncoding(f)
  {
    hide Upper, ImmUpper, OpcBits, FormatBits, RvThird, Bits5, RvOther, RvFloat, SelectCustom0, SelectFp;
    hide SelectCustom1, SelectOp, RvReg, RvImm, SameReading;
    ReadWhen(Instruction(LUI, f.rd, 0, 0, f.immU), RvDecoded(RvOpOf(w, f), f.rd, f.rs1, f.rs2, RvImmOf(w, f), RvThird(w)));
  }

  lemma ReadingOfJal(w: Word, f: Fields)
    requires f.major.JAL_OP?
    ensures ReadAlike(w, f) <==> SharedEncoding(f)
  {
    hide Upper, ImmUpper, OpcBits, FormatBits, RvThird, Bits5, RvOther, RvFloat, SelectCustom0, SelectFp;
    hide SelectCustom1, SelectOp, RvReg, RvImm, SameReading;
    ReadWhen(Instruction(JAL, f.rd, 0, 0, f.immJ), RvDecoded(RvOpOf(w, f), f.rd, f.rs1, f.rs2, RvImmOf(w, f), RvThird(w)));
  }

  lemma ReadingOfJalr(w: Word, f: Fields)
    requires f.major.JALR_OP?
    ensures ReadAlike(w, f) <==> SharedEncoding(f)
  {
    hide Upper, ImmUpper, OpcBits, FormatBits, RvThird, Bits5, RvOther, RvFloat, SelectCustom0, SelectFp;
    hide SelectCustom1, SelectOp, RvReg, RvImm, SameReading;
    ReadWhen(Instruction(JALR, f.rd, f.rs1, 0, f.immI), RvDecoded(RvOpOf(w, f), f.rd, f.rs1, f.rs2, RvImmOf(w, f), RvThird(w)));
  }

  /** The reading of one instruction, without its format's case analysis. */
  lemma ReadWhen(h: Instruction, r: RvDecoded)
    ensures SameReading(h, r) <==>
            && r.op != RV_UNKNOWN && r.op == SharedOp(h.opcode)
            && (h.opcode.SW? || h.opcode.BEQ? || h.opcode.BNE? || r.rd == h.rd)
            && (h.opcode.LUI? || h.opcode.JAL? || r.rs1 == h.rs1)
            && (h.opcode.ADDI? || h.opcode.LW? || h.opcode.JALR? || h.opcode.LUI? || h.opcode.JAL? || r.rs2 == h.rs2)
            && (h.opcode.LUI? ==> r.imm == Upper(h.imm))
           
            && (h.opcode.ADDI? || h.opcode.LW? || h.opcode.JALR? || h.opcode.SW? || h.opcode.BEQ? || h.opcode.BNE? || h.opcode.JAL? ==> r.imm == h.imm)
  {
    hide Upper;
  }

  lemma ReadingOfOthers(w: Word, f: Fields)
    requires f.major.CUSTOM0? || f.major.CUSTOM1? || f.major.OP_FP? || f.major.OTHER?
    ensures !ReadAlike(w, f) && !SharedEncoding(f)
  {
    hide *;
    NoSharedReading(f);
    NotShared(w, f);
    NoEncoding(f);
  }

  lemma NoEncoding(f: Fields)
    requires f.major.CUSTOM0? || f.major.CUSTOM1? || f.major.OP_FP? || f.major.OTHER?
    ensures !SharedEncoding(f)
  {
  }

  lemma NotShared(w: Word, f: Fields)
    requires SharedOp(Assemble(f).opcode) == RV_UNKNOWN
    ensures !ReadAlike(w, f)
  {
    hide Assemble, SharedOp, RvOpOf, RvImmOf, FormatOf;
  }

  lemma NoSharedReading(f: Fields)
    requires f.major.CUSTOM0? || f.major.CUSTOM1? || f.major.OP_FP? || f.major.OTHER?
    ensures SharedOp(Assemble(f).opcode) == RV_UNKNOWN
  {
    hide SharedOp, SelectVector;
    if f.major.CUSTOM0? {
      VectorsNotShared(f.f3, f.f7);
    }
    FloatsNotShared();
  }

  lemma VectorsNotShared(f3: Funct3, f7: Funct7)
    ensures SharedOp(SelectCustom0(f3, f7)) == RV_UNKNOWN
  {
  }

  lemma FloatsNotShared()
    ensures SharedOp(FADD) == SharedOp(FMUL) == SharedOp(HALT) == SharedOp(VBRANCH) == SharedOp(VJOIN) == SharedOp(BARRIER) == RV_UNKNOWN
  {
  }

  /** Over all words, the two decoders read the same operation and operands exactly
      from the encodings of the 14 shared operations. */
  lemma DecodersAgree(w: Word)
    ensures SameReading(Decode(w), DecodeRv(w)) <==> SharedEncoding(FieldsOf(w))
  {
    hide Assemble, RvOpOf, RvImmOf, SharedEncoding, SameReading, FieldsOf;
    if w == 0 {
      ZeroWord(w);
      OtherNotShared(FieldsOf(w), Decode(w));
    } else {
      FieldsImmediate(w);
      ReadingOfFields(w, FieldsOf(w));
    }
  }

  lemma FieldsImmediate(w: Word)
    ensures FieldsOf(w).immU == ImmU(w)
  {
  }

  lemma OtherNotShared(f: Fields, h: Instruction)
    requires f.major.OTHER?
    ensures !SharedEncoding(f) && !SameReading(h, RvDecoded(RV_UNKNOWN, 0, 0, 0, 0, 0))
  {
  }

  /** What the hardware's encoder writes for a shared operation, `decodeRV32` reads back. */
  lemma EncodedForBoth(i: Instruction)
    requires SharedOp(i.opcode) != RV_UNKNOWN
    ensures SameReading(Carried(i), DecodeRv(Encode(i)))
  {
    hide SameReading, Decode, DecodeRv, Encode, Carried, FieldsOf, Reads;
    RoundTrip(i);
    EncodeReads(i);
    SharedFields(FieldsOf(Encode(i)), i);
    DecodersAgree(Encode(i));
  }

  lemma SharedFields(f: Fields, i: Instruction)
    requires Reads(f, i) && SharedOp(i.opcode) != RV_UNKNOWN
    ensures SharedEncoding(f)
  {
    hide Kept12, Kept13, Kept20, Kept21;
  }

  // ----- The barrier word -----

  /** The word the kernel compiler emits for `bar.sync id`. */
  function BarSyncWord(id: Word): Word { (id << 20) | 0x0B }

  lemma BarSyncFields(id: Word)
    requires id < 0x1000
    ensures var w := BarSyncWord(id);
            w != 0 && w >> 20 == id && OpcBits(w) == 0x0B && F3Bits(w) == 0 && RdBits(w) == 0 && Rs1Bits(w) == 0
  {
  }

  lemma ZeroNumbers()
    ensures Number3(0) == 0 && Number5(0) == 0 && MajorOf(0x0B) == CUSTOM0
  {
  }

  /** It reads back as that barrier in the software decoder, and as vector or float
      arithmetic, never as a barrier, in the hardware's. */
  lemma BarSyncReads(id: Word)
    requires id < 0x1000
    ensures DecodeRv(BarSyncWord(id)).op == RV_BAR_SYNC && DecodeRv(BarSyncWord(id)).imm == id
    ensures Decode(BarSyncWord(id)).opcode in {VADD, FADD}
  {
    hide OpcBits, F3Bits, RdBits, Rs1Bits, Rs2Bits, F7Bits, Number3, Number5, Number7, BarSyncWord, ImmI, ImmS, ImmB;
    hide ImmU, ImmJ, MajorOf;
    BarSyncFields(id);
    ZeroNumbers();
  }

  /** A register move between float registers is a sign injection: no decoder entry. */
  lemma FloatMovesAreUnknown(w: Word)
    requires FieldsOf(w).major.OP_FP? && FieldsOf(w).f7 == 0x10
    ensures DecodeRv(w).op == RV_UNKNOWN
  {
    hide FieldsOf;
  }
}

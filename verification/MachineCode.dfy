// The words an RV32IMF assembler makes of the compiler's instructions (RISC-V
// Unprivileged ISA, chapters on RV32I, M and F), as `decodeRV32` reads them
// (models/systemc/integration/riscv_isa.h:66-296).

module MachineCode {
  import opened Isa
  import opened Codec
  import opened Decoders
  import opened Integers
  import Rv32
  import Ptx
  import Emitter
  import Compiled

  // ----- Names and function codes -----

  function ROpName(op: Rv32.ROp): RvOp {
    if op.ADD? then RV_ADD else if op.SUB? then RV_SUB else if op.MUL? then RV_MUL else if op.AND? then RV_AND
    else if op.OR? then RV_OR else if op.XOR? then RV_XOR else if op.SLL? then RV_SLL else if op.SRL? then RV_SRL
    else if op.SRA? then RV_SRA else if op.SLT? then RV_SLT else if op.SLTU? then RV_SLTU else if op.DIV? then RV_DIV
    else if op.DIVU? then RV_DIVU else if op.REM? then RV_REM else RV_REMU
  }

  function RFunct3(op: Rv32.ROp): Funct3 {
    if op.ADD? || op.SUB? || op.MUL? then 0 else if op.SLL? then 1 else if op.SLT? then 2 else if op.SLTU? then 3
    else if op.XOR? || op.DIV? then 4 else if op.SRL? || op.SRA? || op.DIVU? then 5 else if op.OR? || op.REM? then 6 else 7
  }

  function RFunct7(op: Rv32.ROp): Funct7 {
    if op.SUB? || op.SRA? then 0x20 else if op.MUL? || op.DIV? || op.DIVU? || op.REM? || op.REMU? then 1 else 0
  }

  function IOpName(op: Rv32.IOp): RvOp {
    if op.ADDI? then RV_ADDI else if op.SLTI? then RV_SLTI else if op.SLTIU? then RV_SLTIU else if op.XORI? then RV_XORI
    else if op.SLLI? then RV_SLLI else if op.SRLI? then RV_SRLI else RV_SRAI
  }

  function IFunct3(op: Rv32.IOp): Funct3 {
    if op.ADDI? then 0 else if op.SLLI? then 1 else if op.SLTI? then 2 else if op.SLTIU? then 3 else if op.XORI? then 4 else 5
  }

  predicate IsShift(op: Rv32.IOp) { op.SLLI? || op.SRLI? || op.SRAI? }

  function FOpName(op: Rv32.FOp): RvOp {
    if op.FADD? then RV_FADD else if op.FSUB? then RV_FSUB else if op.FMUL? then RV_FMUL else RV_FDIV
  }

  function FFunct7(op: Rv32.FOp): Funct7 { if op.FADD? then 0 else if op.FSUB? then 4 else if op.FMUL? then 8 else 0xC }

  function FCmpName(cmp: Rv32.FCmp): RvOp { if cmp.FEQ? then RV_FEQ else if cmp.FLT? then RV_FLT else RV_FLE }

  function FCmpFunct3(cmp: Rv32.FCmp): Funct3 { if cmp.FEQ? then 2 else if cmp.FLT? then 1 else 0 }

  // ----- Words -----

  function WordR(opc: Word, f3: Funct3, f7: Funct7, rd: Reg, rs1: Reg, rs2: Reg): Word {
    PackR(opc, Bits3(f3), Bits7(f7), Bits5(rd), Bits5(rs1), Bits5(rs2))
  }

  function WordI(opc: Word, f3: Funct3, rd: Reg, rs1: Reg, imm: Word): Word { PackI(opc, Bits3(f3), Bits5(rd), Bits5(rs1), imm) }

  function WordS(opc: Word, f3: Funct3, rs1: Reg, rs2: Reg, imm: Word): Word { PackS(opc, Bits3(f3), Bits5(rs1), Bits5(rs2), imm) }

  function UpperOf(imm: Word): Word { imm >> 12 }

  function IdBits(id: nat): Word
    requires id < 4096
  {
    (id as bv12) as bv32
  }

  /** The word of an instruction; jumps and branches go by their distance in bytes, and
      a float operation rounds as `rm` says. */
  function Assembled(i: Rv32.Rv, offset: Word, rm: Funct3): Word
    requires i.BAR_SYNC? ==> i.id < 4096
  {
    if i.R? then WordR(0x33, RFunct3(i.rop), RFunct7(i.rop), i.rd, i.rs1, i.rs2)
    else if i.I? && IsShift(i.iop) then
      WordR(0x13, IFunct3(i.iop), if i.iop.SRAI? then 0x20 else 0, i.rd, i.rs1, Number5(Low5(i.imm)))
    else if i.I? then WordI(0x13, IFunct3(i.iop), i.rd, i.rs1, i.imm)
    else if i.LUI? then PackU(0x37, Bits5(i.rd), UpperOf(i.imm))
    else if i.LW? then WordI(0x03, 2, i.rd, i.rs1, i.imm)
    else if i.SW? then WordS(0x23, 2, i.rs1, i.rs2, i.imm)
    else if i.FLW? then WordI(0x07, 2, i.fd, i.rs1, i.imm)
    else if i.FSW? then WordS(0x27, 2, i.rs1, i.fs2, i.imm)
    else if i.JAL? then PackJ(0x6F, Bits5(0), offset)
    else if i.BEQZ? then PackB(0x63, Bits3(0), Bits5(i.rs1), Bits5(0), offset)
    else if i.BNEZ? then PackB(0x63, Bits3(1), Bits5(i.rs1), Bits5(0), offset)
    else if i.RET? then WordI(0x67, 0, 0, Rv32.RA, 0)
    else if i.FENCE? then WordI(0x0F, 0, 0, 0, 0xFF)
    else if i.BAR_SYNC? then BarSyncWord(IdBits(i.id))
    else if i.F? then WordR(0x53, rm, FFunct7(i.fop), i.fd, i.fs1, i.fs2)
    else if i.FMADD? then PackR(0x43, Bits3(rm), Bits5(i.fs3) << 2, Bits5(i.fd), Bits5(i.fs1), Bits5(i.fs2))
    else if i.FC? then WordR(0x53, FCmpFunct3(i.cmp), 0x50, i.rd, i.fs1, i.fs2)
    else if i.FCVT_W_S? then WordR(0x53, rm, 0x60, i.rd, i.fs1, 0)
    else if i.FCVT_S_W? then WordR(0x53, rm, 0x68, i.fd, i.rs1, 0)
    else if i.FMV_W_X? then WordR(0x53, 0, 0x78, i.fd, i.rs1, 0)
    else WordR(0x53, 0, 0x10, 0, 0, 0)  // a float register move
  }

  function Low5(imm: Word): (b: Word) ensures b < 32 { imm & 0x1F }

  /** An assembler takes only immediates and distances the format has room for. */
  predicate Encodable(i: Rv32.Rv, offset: Word) {
    if i.I? then (if IsShift(i.iop) then i.imm < 32 else Kept12(i.imm) == i.imm)
    else if i.LUI? then Upper(UpperOf(i.imm)) == i.imm
    else if i.LW? || i.SW? || i.FLW? || i.FSW? then Kept12(i.imm) == i.imm
    else if i.JAL? then Kept21(offset) == offset
    else if i.BEQZ? || i.BNEZ? then Kept13(offset) == offset
    else if i.BAR_SYNC? then i.id < 4096
    else true
  }

  /** The reading names this instruction and all its operands. */
  predicate Names(d: RvDecoded, i: Rv32.Rv, offset: Word)
    requires i.BAR_SYNC? ==> i.id < 4096
  {
    if i.R? then d.op == ROpName(i.rop) && d.rd == i.rd && d.rs1 == i.rs1 && d.rs2 == i.rs2
    else if i.I? then d.op == IOpName(i.iop) && d.rd == i.rd && d.rs1 == i.rs1 && d.imm == i.imm
    else if i.LUI? then d.op == RV_LUI && d.rd == i.rd && d.imm == i.imm
    else if i.LW? then d.op == RV_LW && d.rd == i.rd && d.rs1 == i.rs1 && d.imm == i.imm
    else if i.SW? then d.op == RV_SW && d.rs1 == i.rs1 && d.rs2 == i.rs2 && d.imm == i.imm
    else if i.FLW? then d.op == RV_FLW && d.rd == i.fd && d.rs1 == i.rs1 && d.imm == i.imm
    else if i.FSW? then d.op == RV_FSW && d.rs1 == i.rs1 && d.rs2 == i.fs2 && d.imm == i.imm
    else if i.JAL? then d.op == RV_JAL && d.rd == 0 && d.imm == offset
    else if i.BEQZ? then d.op == RV_BEQ && d.rs1 == i.rs1 && d.rs2 == 0 && d.imm == offset
    else if i.BNEZ? then d.op == RV_BNE && d.rs1 == i.rs1 && d.rs2 == 0 && d.imm == offset
    else if i.RET? then d.op == RV_JALR && d.rd == 0 && d.rs1 == Rv32.RA && d.imm == 0
    else if i.FENCE? then d.op == RV_FENCE
    else if i.BAR_SYNC? then d.op == RV_BAR_SYNC && d.imm == IdBits(i.id)
    else if i.F? then d.op == FOpName(i.fop) && d.rd == i.fd && d.rs1 == i.fs1 && d.rs2 == i.fs2
    else if i.FMADD? then d.op == RV_FMADD && d.rd == i.fd && d.rs1 == i.fs1 && d.rs2 == i.fs2 && d.rs3 == i.fs3
    else if i.FC? then d.op == FCmpName(i.cmp) && d.rd == i.rd && d.rs1 == i.fs1 && d.rs2 == i.fs2
    else if i.FCVT_W_S? then d.op == RV_FCVT_W_S && d.rd == i.rd && d.rs1 == i.fs1
    else if i.FCVT_S_W? then d.op == RV_FCVT_S_W && d.rd == i.fd && d.rs1 == i.rs1
    else if i.FMV_W_X? then d.op == RV_FMV_W_X && d.rd == i.fd && d.rs1 == i.rs1
    else d.op == RV_UNKNOWN
  }

  // ----- Fields of each format -----

  lemma NotZero(w: Word)
    requires OpcBits(w) != 0
    ensures w != 0
  {
  }

  predicate FunctCode(f7: Funct7) {
    f7 == 0 || f7 == 1 || f7 == 4 || f7 == 8 || f7 == 0xC || f7 == 0x10 || f7 == 0x20 || f7 == 0x50 || f7 == 0x60 || f7 == 0x68 || f7 == 0x78
  }

  lemma RoundTripCode(f7: Funct7)
    requires FunctCode(f7)
    ensures Bits7(f7) < 128 && Number7(Bits7(f7)) == f7
  {
  }

  lemma FieldsOfR(opc: Word, f3: Funct3, f7: Funct7, rd: Reg, rs1: Reg, rs2: Reg)
    requires 0 < opc < 128 && FunctCode(f7)
    ensures var w := WordR(opc, f3, f7, rd, rs1, rs2); var f := FieldsOf(w);
            w != 0 && OpcBits(w) == opc && f.major == MajorOf(opc) && f.f3 == f3 && f.f7 == f7 && f.rd == rd
            && f.rs1 == rs1 && f.rs2 == rs2
  {
    hide PackR, OpcBits, F3Bits, F7Bits, RdBits, Rs1Bits, Rs2Bits, ImmI, ImmS, ImmB, ImmU, ImmJ;
    hide Bits3, Bits5, Bits7, Number3, Number5, Number7, MajorOf, FunctCode;
    RoundTrip3(f3);
    RoundTripCode(f7);
    RoundTrip5(rd);
    RoundTrip5(rs1);
    RoundTrip5(rs2);
    FieldsR(opc, Bits3(f3), Bits7(f7), Bits5(rd), Bits5(rs1), Bits5(rs2));
    NotZero(WordR(opc, f3, f7, rd, rs1, rs2));
  }

  lemma FieldsOfI(opc: Word, f3: Funct3, rd: Reg, rs1: Reg, imm: Word)
    requires 0 < opc < 128
    ensures var w := WordI(opc, f3, rd, rs1, imm); var f := FieldsOf(w);
            w != 0 && OpcBits(w) == opc && f.major == MajorOf(opc) && f.f3 == f3 && f.rd == rd && f.rs1 == rs1
            && f.immI == Kept12(imm)
  {
    hide PackI, OpcBits, F3Bits, F7Bits, RdBits, Rs1Bits, Rs2Bits, ImmI, ImmS, ImmB, ImmU, ImmJ;
    hide Bits3, Bits5, Bits7, Number3, Number5, Number7, MajorOf, Kept12;
    RoundTrip3(f3);
    RoundTrip5(rd);
    RoundTrip5(rs1);
    FieldsI(opc, Bits3(f3), Bits5(rd), Bits5(rs1), imm);
    NotZero(WordI(opc, f3, rd, rs1, imm));
  }

  lemma FieldsOfS(opc: Word, f3: Funct3, rs1: Reg, rs2: Reg, imm: Word)
    requires 0 < opc < 128
    ensures var w := WordS(opc, f3, rs1, rs2, imm); var f := FieldsOf(w);
            w != 0 && OpcBits(w) == opc && f.major == MajorOf(opc) && f.f3 == f3 && f.rs1 == rs1 && f.rs2 == rs2
            && f.immS == Kept12(imm)
  {
    hide PackS, OpcBits, F3Bits, F7Bits, RdBits, Rs1Bits, Rs2Bits, ImmI, ImmS, ImmB, ImmU, ImmJ;
    hide Bits3, Bits5, Bits7, Number3, Number5, Number7, MajorOf, Kept12;
    RoundTrip3(f3);
    RoundTrip5(rs1);
    RoundTrip5(rs2);
    FieldsS(opc, Bits3(f3), Bits5(rs1), Bits5(rs2), imm);
    NotZero(WordS(opc, f3, rs1, rs2, imm));
  }

  lemma FieldsOfB(f3: Funct3, rs1: Reg, offset: Word)
    ensures var w := PackB(0x63, Bits3(f3), Bits5(rs1), Bits5(0), offset); var f := FieldsOf(w);
            w != 0 && f.major == MajorOf(0x63) && f.f3 == f3 && f.rs1 == rs1 && f.rs2 == 0 && f.immB == Kept13(offset)
  {
    hide PackB, OpcBits, F3Bits, F7Bits, RdBits, Rs1Bits, Rs2Bits, ImmI, ImmS, ImmB, ImmU, ImmJ;
    hide Bits3, Bits5, Bits7, Number3, Number5, Number7, MajorOf, Kept13;
    RoundTrip3(f3);
    RoundTrip5(rs1);
    RoundTrip5(0);
    FieldsB(0x63, Bits3(f3), Bits5(rs1), Bits5(0), offset);
    NotZero(PackB(0x63, Bits3(f3), Bits5(rs1), Bits5(0), offset));
  }

  lemma FieldsOfJ(offset: Word)
    ensures var w := PackJ(0x6F, Bits5(0), offset); var f := FieldsOf(w);
            w != 0 && f.major == MajorOf(0x6F) && f.rd == 0 && f.immJ == Kept21(offset)
  {
    hide PackJ, OpcBits, F3Bits, F7Bits, RdBits, Rs1Bits, Rs2Bits, ImmI, ImmS, ImmB, ImmU, ImmJ;
    hide Bits3, Bits5, Bits7, Number3, Number5, Number7, MajorOf, Kept21;
    RoundTrip5(0);
    FieldsJ(0x6F, Bits5(0), offset);
    NotZero(PackJ(0x6F, Bits5(0), offset));
  }

  lemma FieldsOfU(rd: Reg, imm: Word)
    requires Upper(UpperOf(imm)) == imm
    ensures var w := PackU(0x37, Bits5(rd), UpperOf(imm)); var f := FieldsOf(w);
            w != 0 && f.major == MajorOf(0x37) && f.rd == rd && ImmUpper(w) == imm
  {
    hide PackU, OpcBits, F3Bits, F7Bits, RdBits, Rs1Bits, Rs2Bits, ImmI, ImmS, ImmB, ImmU, ImmJ;
    hide Bits3, Bits5, Bits7, Number3, Number5, Number7, MajorOf, Kept20, Upper, UpperOf, ImmUpper;
    RoundTrip5(rd);
    FieldsU(0x37, Bits5(rd), UpperOf(imm));
    UpperBack(Bits5(rd), imm);
    NotZero(PackU(0x37, Bits5(rd), UpperOf(imm)));
  }

  lemma UpperBack(rd: Word, imm: Word)
    requires rd < 32 && Upper(UpperOf(imm)) == imm
    ensures ImmUpper(PackU(0x37, rd, UpperOf(imm))) == imm
  {
  }

  lemma FusedBits(w: Word, rm: Word, fs3: Word, rd: Word, rs1: Word, rs2: Word)
    requires rm < 8 && fs3 < 32 && rd < 32 && rs1 < 32 && rs2 < 32 && w == PackR(0x43, rm, fs3 << 2, rd, rs1, rs2)
    ensures OpcBits(w) == 0x43 && FormatBits(w) == 0 && Rs3Bits(w) == fs3
    ensures RdBits(w) == rd && Rs1Bits(w) == rs1 && Rs2Bits(w) == rs2
  {
  }

  lemma Low5Back(imm: Word)
    requires imm < 32
    ensures Bits5(Number5(Low5(imm))) == imm
  {
  }

  // ----- Reading back -----

  lemma OpReads(i: Rv32.Rv, rm: Funct3)
    requires i.R?
    ensures Names(DecodeRv(Assembled(i, 0, rm)), i, 0)
  {
    hide WordR, FieldsOf, OpcBits, RvThird, RvImmOf;
    OpFunct(i.rop);
    FieldsOfR(0x33, RFunct3(i.rop), RFunct7(i.rop), i.rd, i.rs1, i.rs2);
    OpCodes(i.rop);
  }

  lemma OpCodes(op: Rv32.ROp)
    ensures RvReg(RFunct3(op), RFunct7(op)) == ROpName(op)
  {
    if op.MUL? || op.DIV? || op.DIVU? || op.REM? || op.REMU? {
      assert RFunct7(op) == 1;
    } else {
      assert RFunct7(op) == if op.SUB? || op.SRA? then 0x20 else 0;
    }
  }

  lemma OpFunct(op: Rv32.ROp)
    ensures FunctCode(RFunct7(op)) && MajorOf(0x33) == OP
  {
  }

  lemma ImmReads(i: Rv32.Rv, rm: Funct3)
    requires i.I? && Encodable(i, 0)
    ensures Names(DecodeRv(Assembled(i, 0, rm)), i, 0)
  {
    hide WordR, WordI, FieldsOf, OpcBits, RvThird, Kept12, Bits5, Number5, Low5;
    ImmCodes(i.iop);
    if IsShift(i.iop) {
      var f7: Funct7 := if i.iop.SRAI? then 0x20 else 0;
      FieldsOfR(0x13, IFunct3(i.iop), f7, i.rd, i.rs1, Number5(Low5(i.imm)));
      ShiftCodes(i.iop, f7);
      Low5Back(i.imm);
    } else {
      FieldsOfI(0x13, IFunct3(i.iop), i.rd, i.rs1, i.imm);
    }
  }

  lemma ImmCodes(op: Rv32.IOp)
    ensures MajorOf(0x13) == OP_IMM && FunctCode(0x20) && FunctCode(0)
    ensures !IsShift(op) ==> IFunct3(op) != 1 && IFunct3(op) != 5 && forall f7: Funct7 :: RvImm(IFunct3(op), f7) == IOpName(op)
  {
  }

  lemma ShiftCodes(op: Rv32.IOp, f7: Funct7)
    requires IsShift(op) && f7 == if op.SRAI? then 0x20 else 0
    ensures RvImm(IFunct3(op), f7) == IOpName(op) && (IFunct3(op) == 1 || IFunct3(op) == 5)
  {
  }

  lemma Majors()
    ensures MajorOf(0x03) == LOAD_OP && MajorOf(0x23) == STORE_OP && MajorOf(0x67) == JALR_OP && MajorOf(0x6F) == JAL_OP
    ensures MajorOf(0x63) == BRANCH_OP && MajorOf(0x37) == LUI_OP && MajorOf(0x53) == OP_FP
    ensures MajorOf(0x07) == MajorOf(0x27) == MajorOf(0x43) == MajorOf(0x0F) == OTHER
  {
  }

  lemma LoadReads(i: Rv32.Rv, rm: Funct3)
    requires (i.LW? || i.FLW?) && Encodable(i, 0)
    ensures Names(DecodeRv(Assembled(i, 0, rm)), i, 0)
  {
    hide WordI, FieldsOf, OpcBits, RvThird, Kept12, MajorOf, FormatBits, RvFloat, RvReg, RvImm;
    Majors();
    if i.LW? {
      FieldsOfI(0x03, 2, i.rd, i.rs1, i.imm);
    } else {
      FieldsOfI(0x07, 2, i.fd, i.rs1, i.imm);
    }
  }

  lemma StoreReads(i: Rv32.Rv, rm: Funct3)
    requires (i.SW? || i.FSW?) && Encodable(i, 0)
    ensures Names(DecodeRv(Assembled(i, 0, rm)), i, 0)
  {
    hide WordS, FieldsOf, OpcBits, RvThird, Kept12, MajorOf, FormatBits, RvFloat, RvReg, RvImm, RvLoad, RvBranch;
    Majors();
    if i.SW? {
      FieldsOfS(0x23, 2, i.rs1, i.rs2, i.imm);
    } else {
      FieldsOfS(0x27, 2, i.rs1, i.fs2, i.imm);
    }
  }

  lemma JumpReads(i: Rv32.Rv, offset: Word, rm: Funct3)
    requires (i.JAL? || i.BEQZ? || i.BNEZ? || i.RET?) && Encodable(i, offset)
    ensures Names(DecodeRv(Assembled(i, offset, rm)), i, offset)
  {
    hide WordI, PackJ, PackB, FieldsOf, OpcBits, RvThird, Kept12, Kept13, Kept21, MajorOf, Bits5, Bits3, RvFloat, RvReg, RvImm, RvOther;
    Majors();
    if i.JAL? {
      FieldsOfJ(offset);
    } else if i.BEQZ? {
      FieldsOfB(0, i.rs1, offset);
    } else if i.BNEZ? {
      FieldsOfB(1, i.rs1, offset);
    } else {
      FieldsOfI(0x67, 0, 0, Rv32.RA, 0);
      NothingKept();
    }
  }

  lemma NothingKept()
    ensures Kept12(0) == 0
  {
  }

  lemma FloatCodes(op: Rv32.FOp, rm: Funct3, rs2: Reg)
    ensures RvFloat(rm, FFunct7(op), rs2) == FOpName(op)
    ensures FunctCode(FFunct7(op))
  {
  }

  lemma CompareCodes(cmp: Rv32.FCmp, rs2: Reg)
    ensures RvFloat(FCmpFunct3(cmp), 0x50, rs2) == FCmpName(cmp) && FunctCode(0x50)
  {
  }

  lemma ConversionCodes(rm: Funct3)
    ensures RvFloat(rm, 0x60, 0) == RV_FCVT_W_S && RvFloat(rm, 0x68, 0) == RV_FCVT_S_W
    ensures RvFloat(0, 0x78, 0) == RV_FMV_W_X && RvFloat(0, 0x10, 0) == RV_UNKNOWN
    ensures FunctCode(0x60) && FunctCode(0x68) && FunctCode(0x78) && FunctCode(0x10)
  {
  }

  // What a float word reads as, once its fields are known.
  lemma FloatDecoded(w: Word, f: Fields)
    requires w != 0 && f == FieldsOf(w) && f.major == OP_FP
    ensures var d := DecodeRv(w); d.op == RvFloat(f.f3, f.f7, f.rs2) && d.rd == f.rd && d.rs1 == f.rs1 && d.rs2 == f.rs2
  {
    hide FieldsOf, RvThird, RvImmOf, RvFloat;
  }

  lemma FloatReads(i: Rv32.Rv, rm: Funct3)
    requires i.F? || i.FC? || i.FCVT_W_S? || i.FCVT_S_W? || i.FMV_W_X? || i.UNKNOWN?
    ensures Names(DecodeRv(Assembled(i, 0, rm)), i, 0)
  {
    hide WordR, FieldsOf, OpcBits, DecodeRv, MajorOf, RvFloat, FunctCode, FFunct7, FCmpFunct3, FOpName, FCmpName;
    Majors();
    ConversionCodes(rm);
    if i.F? {
      FloatCodes(i.fop, rm, i.fs2);
      FieldsOfR(0x53, rm, FFunct7(i.fop), i.fd, i.fs1, i.fs2);
    } else if i.FC? {
      CompareCodes(i.cmp, i.fs2);
      FieldsOfR(0x53, FCmpFunct3(i.cmp), 0x50, i.rd, i.fs1, i.fs2);
    } else if i.FCVT_W_S? {
      FieldsOfR(0x53, rm, 0x60, i.rd, i.fs1, 0);
    } else if i.FCVT_S_W? {
      FieldsOfR(0x53, rm, 0x68, i.fd, i.rs1, 0);
    } else if i.FMV_W_X? {
      FieldsOfR(0x53, 0, 0x78, i.fd, i.rs1, 0);
    } else {
      FieldsOfR(0x53, 0, 0x10, 0, 0, 0);
    }
    FloatDecoded(Assembled(i, 0, rm), FieldsOf(Assembled(i, 0, rm)));
  }

  lemma FusedReads(i: Rv32.Rv, rm: Funct3)
    requires i.FMADD?
    ensures Names(DecodeRv(Assembled(i, 0, rm)), i, 0)
  {
    hide PackR, OpcBits, F3Bits, F7Bits, RdBits, Rs1Bits, Rs2Bits, Rs3Bits, FormatBits, ImmI, ImmS, ImmB, ImmU, ImmJ;
    hide Bits3, Bits5, Number3, Number5, Number7, MajorOf, RvImmOf;
    Majors();
    RoundTrip3(rm);
    RoundTrip5(i.fd);
    RoundTrip5(i.fs1);
    RoundTrip5(i.fs2);
    RoundTrip5(i.fs3);
    var w := Assembled(i, 0, rm);
    FusedBits(w, Bits3(rm), Bits5(i.fs3), Bits5(i.fd), Bits5(i.fs1), Bits5(i.fs2));
    NotZero(w);
  }

  lemma UpperReads(i: Rv32.Rv, rm: Funct3)
    requires i.LUI? && Encodable(i, 0)
    ensures Names(DecodeRv(Assembled(i, 0, rm)), i, 0)
  {
    hide PackU, FieldsOf, OpcBits, RvThird, MajorOf, Bits5, Upper, UpperOf, ImmUpper;
    Majors();
    FieldsOfU(i.rd, i.imm);
  }

  lemma SyncReads(i: Rv32.Rv, rm: Funct3)
    requires (i.FENCE? || i.BAR_SYNC?) && Encodable(i, 0)
    ensures Names(DecodeRv(Assembled(i, 0, rm)), i, 0)
  {
    hide WordI, FieldsOf, OpcBits, RvThird, MajorOf, BarSyncWord, IdBits, FormatBits;
    Majors();
    if i.FENCE? {
      FieldsOfI(0x0F, 0, 0, 0, 0xFF);
    } else {
      IdSmall(i.id);
      BarSyncReads(IdBits(i.id));
    }
  }

  lemma IdSmall(id: nat)
    requires id < 4096
    ensures IdBits(id) < 0x1000
  {
  }

  /** The word of every instruction the compiler emits reads back as that instruction,
      with all its operands, wherever an assembler takes it; a float register move
      reads as no instruction at all. */
  lemma ReadsBack(i: Rv32.Rv, offset: Word, rm: Funct3)
    requires Encodable(i, offset)
    ensures Names(DecodeRv(Assembled(i, offset, rm)), i, offset)
  {
    hide DecodeRv;
    assert !i.JAL? && !i.BEQZ? && !i.BNEZ? ==>
      Assembled(i, offset, rm) == Assembled(i, 0, rm) && forall d :: Names(d, i, offset) == Names(d, i, 0);
    if i.R? {
      OpReads(i, rm);
    } else if i.I? {
      ImmReads(i, rm);
    } else if i.LUI? {
      UpperReads(i, rm);
    } else if i.LW? || i.FLW? {
      LoadReads(i, rm);
    } else if i.SW? || i.FSW? {
      StoreReads(i, rm);
    } else if i.JAL? || i.BEQZ? || i.BNEZ? || i.RET? {
      JumpReads(i, offset, rm);
    } else if i.FENCE? || i.BAR_SYNC? {
      SyncReads(i, rm);
    } else if i.FMADD? {
      FusedReads(i, rm);
    } else {
      FloatReads(i, rm);
    }
  }

  lemma HardwareDecoded(w: Word, f: Fields)
    requires f == FieldsOf(w) && f.major == OP_FP
    ensures Decode(w) == Instruction(if f.f7 == 0 then FADD else if f.f7 == 8 then FMUL else HALT, f.rd, f.rs1, f.rs2, 0)
  {
    hide FieldsOf;
  }

  /** To the hardware's decoder a float word of the compiler is an addition or a
      multiplication of the same registers if it is one, and anything else is a halt. */
  lemma HardwareFloats(i: Rv32.Rv, rm: Funct3)
    requires i.F? || i.FC? || i.FCVT_W_S? || i.FCVT_S_W? || i.FMV_W_X? || i.UNKNOWN?
    ensures var h := Decode(Assembled(i, 0, rm));
            && (h.opcode.FADD? <==> i.F? && i.fop.FADD?) && (h.opcode.FMUL? <==> i.F? && i.fop.FMUL?)
            && (h.opcode.FADD? || h.opcode.FMUL? || h.opcode.HALT?)
            && (i.F? ==> h.rd == i.fd && h.rs1 == i.fs1 && h.rs2 == i.fs2)
  {
    hide WordR, FieldsOf, OpcBits, MajorOf, FunctCode, Decode, RvFloat, FCmpFunct3, FOpName, FCmpName;
    Majors();
    ConversionCodes(rm);
    if i.F? {
      FloatCodes(i.fop, rm, i.fs2);
      FieldsOfR(0x53, rm, FFunct7(i.fop), i.fd, i.fs1, i.fs2);
    } else if i.FC? {
      CompareCodes(i.cmp, i.fs2);
      FieldsOfR(0x53, FCmpFunct3(i.cmp), 0x50, i.rd, i.fs1, i.fs2);
    } else if i.FCVT_W_S? {
      FieldsOfR(0x53, rm, 0x60, i.rd, i.fs1, 0);
    } else if i.FCVT_S_W? {
      FieldsOfR(0x53, rm, 0x68, i.fd, i.rs1, 0);
    } else if i.FMV_W_X? {
      FieldsOfR(0x53, 0, 0x78, i.fd, i.rs1, 0);
    } else {
      FieldsOfR(0x53, 0, 0x10, 0, 0, 0);
    }
    HardwareDecoded(Assembled(i, 0, rm), FieldsOf(Assembled(i, 0, rm)));
  }

  // ----- Literals and fields -----

  lemma PowersUsed()
    ensures Power(5) == 32 && Power(11) == 2048 && Power(12) == 4096
    ensures PowerWord(5) == 0x20 && PowerWord(11) == 0x800 && PowerWord(12) == 0x1000
  {
    TableOfPowers(12);
    assert PowerWord(2) == 0x4; assert PowerWord(4) == 0x10; assert PowerWord(6) == 0x40;
    assert PowerWord(8) == 0x100; assert PowerWord(10) == 0x400;
  }

  lemma ShortFits(w: Word)
    requires w < 0x800
    ensures Isa.Fits12(w) && w < 0x1000
  {
  }

  lemma NegatedFits(w: Word)
    requires w == 0x800 || w < 0x800
    ensures Isa.Fits12(Difference(0, w))
  {
  }

  /** A 12-bit literal survives its field. */
  lemma FitsField(v: int)
    requires Emitter.Fits(v)
    ensures Kept12(ToWord(v)) == ToWord(v)
  {
    hide Kept12, ToWord, Isa.Fits12, Difference, Sum, Power, PowerWord;
    var n := if v < 0 then -v else v;
    PowersUsed();
    if n < 2048 {
      SmallLiteral(11, n);
    } else {
      PowerLiteral(11);
    }
    if v >= 0 {
      ShortFits(ToWord(v));
    } else {
      NegatedLiteral(0, n);
      NegatedFits(ToWord(n));
      SumDifference(ToWord(v), 0, 0);
      SumDifference(0, ToWord(v), 0);
    }
    Extend12Exact(ToWord(v));
  }

  predicate LowClear(w: Word) { w & 0xFFF == 0 }

  lemma ClearUpper(w: Word)
    ensures LowClear(w) ==> Upper(UpperOf(w)) == w
    ensures LowClear(0)
    ensures LowClear(w) ==> LowClear(Sum(w, 0x1000)) && LowClear(Difference(w, 0x1000))
  {
  }

  lemma {:induction false} PageClear(h: int)
    ensures LowClear(ToWord(h * 4096))
    decreases if h < 0 then -h else h
  {
    hide ToWord, Sum, Difference, LowClear, Power, PowerWord;
    PowerLiteral(12);
    PowersUsed();
    if h == 0 {
      Zero();
      ClearUpper(0);
    } else if h > 0 {
      PageClear(h - 1);
      ToWordAdds((h - 1) * 4096, 4096);
      ClearUpper(ToWord((h - 1) * 4096));
    } else {
      PageClear(h + 1);
      NegatedLiteral(ToWord((h + 1) * 4096), 4096);
      ToWordAdds((h + 1) * 4096, -4096);
      assert (h + 1) * 4096 + -4096 == h * 4096;
      ClearUpper(ToWord((h + 1) * 4096));
    }
  }

  predicate AllFit(code: seq<Rv32.Rv>) { forall k :: 0 <= k < |code| ==> Encodable(code[k], 0) }

  lemma LiFits(rd: Reg, v: int)
    ensures AllFit(Emitter.Li(rd, v))
  {
    hide ToWord, Kept12, Upper, UpperOf;
    if Emitter.Fits(v) {
      FitsField(v);
    } else {
      var hi := (v + 2048) / 4096;
      PageClear(hi);
      ClearUpper(ToWord(hi * 4096));
      FitsField(v - hi * 4096);
    }
  }

  lemma SmallFits()
    ensures Kept12(0) == 0 && Kept12(1) == 1 && Kept12(0xFFFF_FFFF) == 0xFFFF_FFFF
  {
  }

  lemma ShiftFits(v: nat)
    requires v < 32
    ensures ToWord(v) < 32
  {
    hide ToWord, Power, PowerWord;
    PowersUsed();
    SmallLiteral(5, v);
  }

  lemma ImmediateFits(op: Ptx.AluOp, signed: bool, rd: Reg, ra: Reg, v: int)
    requires Compiled.AluAssembles(op, v)
    ensures AllFit(Emitter.ImmediateLines(op, signed, rd, ra, v))
  {
    hide ToWord, Kept12, Emitter.Li, Emitter.Log2, Emitter.IsPower, Power;
    LiFits(Emitter.T6, v);
    LiFits(Emitter.T6, -v);
    if op.ALU_SHL? || op.ALU_SHR? {
      ShiftFits(v);
    } else if Emitter.Fits(v) && op.ALU_ADD? {
      FitsField(v);
    } else if Emitter.Fits(-v) && op.ALU_SUB? {
      FitsField(-v);
    } else if op.ALU_MUL? && Emitter.IsPower(v) {
      ShiftFits(Emitter.Log2(v, 0));
    }
  }

  lemma SetpFits(a: Emitter.Alloc, cmp: Ptx.Cmp, signed: bool, p: Reg, ra: Reg, b: Ptx.Operand)
    requires b.Immediate? ==> Compiled.SetpAssembles(cmp, b.v)
    ensures AllFit(Emitter.SetpLines(a, cmp, signed, p, ra, b))
  {
    hide ToWord, Kept12, Emitter.Ir;
    SmallFits();
    if b.Immediate? {
      if cmp.LT? || cmp.GE? {
        FitsField(b.v);
      } else if cmp.GT? || cmp.LE? {
        FitsField(b.v + 1);
      } else {
        FitsField(-b.v);
      }
    }
  }

  lemma BaseFits(a: Emitter.Alloc, base: Ptx.Name)
    ensures AllFit(Emitter.SharedBase(a, base))
  {
    hide Emitter.Li, Emitter.Ir;
    LiFits(Emitter.T6, Ptx.SHARED_BASE);
  }

  /** Every instruction of a line that assembles fits its format. */
  lemma LineFits(a: Emitter.Alloc, n: Ptx.Instr)
    requires Compiled.Accepted(n) && Compiled.Assembles(n) && !Compiled.Control(n)
    ensures AllFit(Emitter.Lines(a, n, 0))
  {
    hide ToWord, Kept12, Emitter.Ir, Emitter.Fr, Emitter.SetpLines, Emitter.ImmediateLines, Emitter.SharedBase, Emitter.Li;
    SmallFits();
    if n.Ld? || n.St? {
      FitsField(n.offset);
      BaseFits(a, n.base);
    } else if n.MovSpecial? && n.special < Emitter.SPECIALS {
      FitsField(4 * n.special);
    } else if n.Mov? && n.a.Immediate? {
      LiFits(Emitter.Ir(a, n.d), n.a.v);
    } else if n.Setp? {
      SetpFits(a, n.cmp, n.signed, Emitter.Ir(a, n.d), Emitter.Ir(a, n.ra), n.b);
    } else if n.Alu? && n.b.Immediate? {
      ImmediateFits(n.op, n.signed, Emitter.Ir(a, n.d), Emitter.Source(a, n.a), n.b.v);
    }
  }

  // ----- Whole kernels -----

  predicate IsJump(i: Rv32.Rv) { i.JAL? || i.BEQZ? || i.BNEZ? }

  /** How far the instruction at position k jumps, in bytes. */
  function Distance(i: Rv32.Rv, k: nat): Word { if IsJump(i) then ToWord(4 * (i.target - k)) else 0 }

  predicate FitsOrJumps(code: seq<Rv32.Rv>) { forall k :: 0 <= k < |code| ==> IsJump(code[k]) || Encodable(code[k], 0) }

  lemma ControlFits(a: Emitter.Alloc, n: Ptx.Instr, x: nat)
    requires Compiled.Control(n)
    ensures FitsOrJumps(Emitter.Lines(a, n, x))
  {
    hide Emitter.Ir;
  }

  lemma {:induction false} CodeFits(a: Emitter.Alloc, body: seq<Ptx.Instr>, j: nat)
    requires j <= |body| && forall k :: 0 <= k < |body| ==> Compiled.Accepted(body[k]) && Compiled.Assembles(body[k])
    ensures FitsOrJumps(Compiled.CodeTo(a, body, j))
  {
    hide Encodable, Emitter.Lines, Compiled.Target, Compiled.Accepted, Compiled.Assembles;
    if j > 0 {
      CodeFits(a, body, j - 1);
      var n, x := body[j - 1], Compiled.Target(a, body, body[j - 1]);
      if Compiled.Control(n) {
        ControlFits(a, n, x);
      } else {
        LineFits(a, n);
        Compiled.LinesTarget(a, n, x);
      }
    }
  }

  /** From kernel to words and back: in the words of a compiled kernel whose lines
      assemble and whose jumps are in reach, the decoder finds the machine's code, and
      every jump's distance leads to its target. */
  lemma KernelReads(body: seq<Ptx.Instr>, k: nat, rm: Funct3)
    requires Compiled.Emit(body).Emitted? && k < |Compiled.Emit(body).code|
    requires forall j :: 0 <= j < |body| ==> Compiled.Assembles(body[j])
    requires var i := Compiled.Emit(body).code[k]; IsJump(i) ==> Encodable(i, Distance(i, k))
    ensures var i := Compiled.Emit(body).code[k]; var d := Distance(i, k);
            && Encodable(i, d) && Names(DecodeRv(Assembled(i, d, rm)), i, d)
            && (IsJump(i) ==> Sum(ToWord(4 * k), d) == ToWord(4 * i.target))
  {
    hide Names, DecodeRv, Assembled, Compiled.CodeTo, Compiled.Assembles, Emitter.Fitting, ToWord, Sum;
    CodeFits(Compiled.Allocation(body), body, |body|);
    var i := Compiled.Emit(body).code[k];
    ReadsBack(i, Distance(i, k), rm);
    if IsJump(i) {
      ToWordAdds(4 * k, 4 * (i.target - k));
      assert 4 * k + 4 * (i.target - k) == 4 * i.target;
    }
  }
}

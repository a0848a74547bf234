// Instruction words: hls/src/compute_unit/rv32i_codec.h.

/** Encoder and decoder between `Instruction` values and 32-bit words. */
module Codec {
  import opened Isa

  /** Major opcodes; every other value of the low seven bits reads as OTHER. */
  datatype Major =
    | OP | OP_IMM | LUI_OP | LOAD_OP | STORE_OP | BRANCH_OP | JAL_OP | JALR_OP
    | CUSTOM0 | CUSTOM1 | OP_FP | OTHER

  function MajorCode(m: Major): Word {
    if m.OP? then 0x33
    else if m.OP_IMM? then 0x13
    else if m.LUI_OP? then 0x37
    else if m.LOAD_OP? then 0x03
    else if m.STORE_OP? then 0x23
    else if m.BRANCH_OP? then 0x63
    else if m.JAL_OP? then 0x6F
    else if m.JALR_OP? then 0x67
    else if m.CUSTOM0? then 0x0B
    else if m.CUSTOM1? then 0x2B
    else if m.OP_FP? then 0x53
    else 0
  }

  function MajorOf(opc: Word): Major {
    if opc == 0x33 then OP
    else if opc == 0x13 then OP_IMM
    else if opc == 0x37 then LUI_OP
    else if opc == 0x03 then LOAD_OP
    else if opc == 0x23 then STORE_OP
    else if opc == 0x63 then BRANCH_OP
    else if opc == 0x6F then JAL_OP
    else if opc == 0x67 then JALR_OP
    else if opc == 0x0B then CUSTOM0
    else if opc == 0x2B then CUSTOM1
    else if opc == 0x53 then OP_FP
    else OTHER
  }

  lemma MajorRoundTrip(m: Major)
    ensures MajorCode(m) < 128 && MajorOf(MajorCode(m)) == m
  {
  }

  // ----- Numbers and the bits that hold them -----

  type Funct3 = x: int | 0 <= x < 8
  type Funct7 = x: int | 0 <= x < 128

  function Bits3(x: Funct3): Word { (x as bv3) as bv32 }
  function Bits5(x: Reg): Word { (x as bv5) as bv32 }
  function Bits7(x: Funct7): Word { (x as bv7) as bv32 }
  function Number3(b: Word): Funct3 requires b < 8 { (b as bv3) as int }
  function Number5(b: Word): Reg requires b < 32 { (b as bv5) as int }
  function Number7(b: Word): Funct7 requires b < 128 { (b as bv7) as int }

  lemma RoundTrip3(x: Funct3)
    ensures Bits3(x) < 8 && Number3(Bits3(x)) == x
  {
  }

  lemma RoundTrip5(x: Reg)
    ensures Bits5(x) < 32 && Number5(Bits5(x)) == x
  {
  }

  // The three values an encoding uses.
  lemma RoundTrip7(x: Funct7)
    requires x == 0 || x == 1 || x == 0x20
    ensures Bits7(x) < 128 && Number7(Bits7(x)) == x
  {
  }

  // ----- Field packing -----

  function PackR(opc: Word, f3: Word, f7: Word, rd: Word, rs1: Word, rs2: Word): Word {
    (f7 << 25) | (rs2 << 20) | (rs1 << 15) | (f3 << 12) | (rd << 7) | opc
  }

  function PackI(opc: Word, f3: Word, rd: Word, rs1: Word, imm: Word): Word {
    ((imm & 0xFFF) << 20) | (rs1 << 15) | (f3 << 12) | (rd << 7) | opc
  }

  function PackS(opc: Word, f3: Word, rs1: Word, rs2: Word, imm: Word): Word {
    (((imm >> 5) & 0x7F) << 25) | (rs2 << 20) | (rs1 << 15) | (f3 << 12) | ((imm & 0x1F) << 7) | opc
  }

  function PackB(opc: Word, f3: Word, rs1: Word, rs2: Word, imm: Word): Word {
    (((imm >> 12) & 1) << 31) | (((imm >> 5) & 0x3F) << 25) | (rs2 << 20) | (rs1 << 15)
    | (f3 << 12) | (((imm >> 1) & 0xF) << 8) | (((imm >> 11) & 1) << 7) | opc
  }

  // The immediate of LUI is the raw, unshifted 20-bit value.
  function PackU(opc: Word, rd: Word, imm: Word): Word {
    ((imm & 0xF_FFFF) << 12) | (rd << 7) | opc
  }

  function PackJ(opc: Word, rd: Word, imm: Word): Word {
    (((imm >> 20) & 1) << 31) | (((imm >> 1) & 0x3FF) << 21) | (((imm >> 11) & 1) << 20)
    | (((imm >> 12) & 0xFF) << 12) | (rd << 7) | opc
  }

  /** The packing each opcode uses, with its constant fields. */
  datatype Format =
    | RType(major: Major, f3: Funct3, f7: Funct7)
    | IType(major: Major, f3: Funct3)
    | SType(major: Major, f3: Funct3)
    | BType(major: Major, f3: Funct3)
    | UType(major: Major)
    | JType(major: Major)

  function FormatOf(op: Opcode): Format {
    if op.ADD? then RType(OP, 0, 0)
    else if op.SUB? then RType(OP, 0, 0x20)
    else if op.AND? then RType(OP, 7, 0)
    else if op.OR? then RType(OP, 6, 0)
    else if op.XOR? then RType(OP, 4, 0)
    else if op.SLT? then RType(OP, 2, 0)
    else if op.ADDI? then IType(OP_IMM, 0)
    else if op.LUI? then UType(LUI_OP)
    else if op.LW? then IType(LOAD_OP, 2)
    else if op.SW? then SType(STORE_OP, 2)
    else if op.BEQ? then BType(BRANCH_OP, 0)
    else if op.BNE? then BType(BRANCH_OP, 1)
    else if op.JAL? then JType(JAL_OP)
    else if op.JALR? then IType(JALR_OP, 0)
    else if op.VADD? then RType(CUSTOM0, 0, 0)
    else if op.VSUB? then RType(CUSTOM0, 1, 0)
    else if op.VMUL? then RType(CUSTOM0, 2, 0)
    else if op.VFMADD? then RType(CUSTOM0, 3, 0)
    else if op.VFADD? then RType(CUSTOM0, 4, 0)
    else if op.VFSUB? then RType(CUSTOM0, 5, 0)
    else if op.VFMUL? then RType(CUSTOM0, 6, 0)
    else if op.VFFMADD? then RType(CUSTOM0, 7, 0)
    else if op.FADD? then RType(CUSTOM0, 0, 1)
    else if op.FMUL? then RType(CUSTOM0, 1, 1)
    else if op.VBRANCH? then RType(CUSTOM1, 0, 0)
    else if op.VJOIN? then RType(CUSTOM1, 1, 0)
    else if op.BARRIER? then IType(CUSTOM1, 2)
    else RType(CUSTOM1, 3, 0)  // HALT
  }

  /** `encodeInstruction`. */
  function Encode(i: Instruction): Word {
    match FormatOf(i.opcode)
    case RType(m, f3, f7) => PackR(MajorCode(m), Bits3(f3), Bits7(f7), Bits5(i.rd), Bits5(i.rs1), Bits5(i.rs2))
    case IType(m, f3) => PackI(MajorCode(m), Bits3(f3), Bits5(i.rd), Bits5(i.rs1), i.imm)
    case SType(m, f3) => PackS(MajorCode(m), Bits3(f3), Bits5(i.rs1), Bits5(i.rs2), i.imm)
    case BType(m, f3) => PackB(MajorCode(m), Bits3(f3), Bits5(i.rs1), Bits5(i.rs2), i.imm)
    case UType(m) => PackU(MajorCode(m), Bits5(i.rd), i.imm)
    case JType(m) => PackJ(MajorCode(m), Bits5(i.rd), i.imm)
  }

  // ----- Field extraction -----

  function OpcBits(w: Word): (b: Word) ensures b < 128 { w & 0x7F }
  function F3Bits(w: Word): (b: Word) ensures b < 8 { (w >> 12) & 7 }
  function F7Bits(w: Word): (b: Word) ensures b < 128 { (w >> 25) & 0x7F }
  function RdBits(w: Word): (b: Word) ensures b < 32 { (w >> 7) & 0x1F }
  function Rs1Bits(w: Word): (b: Word) ensures b < 32 { (w >> 15) & 0x1F }
  function Rs2Bits(w: Word): (b: Word) ensures b < 32 { (w >> 20) & 0x1F }

  function Extend12(v: Word): Word { if v & 0x800 != 0 then v | 0xFFFF_F000 else v }
  function Extend13(v: Word): Word { if v & 0x1000 != 0 then v | 0xFFFF_E000 else v }
  function Extend21(v: Word): Word { if v & 0x10_0000 != 0 then v | 0xFFE0_0000 else v }

  function ImmI(w: Word): Word { Extend12(w >> 20) }
  function ImmS(w: Word): Word { Extend12(((w >> 25) << 5) | ((w >> 7) & 0x1F)) }
  function ImmB(w: Word): Word {
    Extend13((((w >> 31) & 1) << 12) | (((w >> 7) & 1) << 11) | (((w >> 25) & 0x3F) << 5) | (((w >> 8) & 0xF) << 1))
  }
  function ImmU(w: Word): Word { w >> 12 }
  function ImmJ(w: Word): Word {
    Extend21((((w >> 31) & 1) << 20) | (((w >> 12) & 0xFF) << 12) | (((w >> 20) & 1) << 11) | (((w >> 21) & 0x3FF) << 1))
  }

  /** A word read as every format at once. */
  datatype Fields = Fields(major: Major, f3: Funct3, f7: Funct7, rd: Reg, rs1: Reg, rs2: Reg,
                           immI: Word, immS: Word, immB: Word, immU: Word, immJ: Word)

  function FieldsOf(w: Word): Fields {
    Fields(MajorOf(OpcBits(w)), Number3(F3Bits(w)), Number7(F7Bits(w)),
           Number5(RdBits(w)), Number5(Rs1Bits(w)), Number5(Rs2Bits(w)),
           ImmI(w), ImmS(w), ImmB(w), ImmU(w), ImmJ(w))
  }

  function SelectOp(f3: Funct3, f7: Funct7): Opcode {
    if f3 == 0 then (if f7 == 0x20 then SUB else ADD)
    else if f3 == 7 then AND
    else if f3 == 6 then OR
    else if f3 == 4 then XOR
    else SLT
  }

  function SelectVector(f3: Funct3): Opcode {
    if f3 == 0 then VADD else if f3 == 1 then VSUB else if f3 == 2 then VMUL else if f3 == 3 then VFMADD
    else if f3 == 4 then VFADD else if f3 == 5 then VFSUB else if f3 == 6 then VFMUL else VFFMADD
  }

  function SelectCustom0(f3: Funct3, f7: Funct7): Opcode {
    if f7 == 0 then SelectVector(f3) else if f3 == 0 then FADD else FMUL
  }

  function SelectFp(f7: Funct7): Opcode {
    if f7 == 0 then FADD else if f7 == 0x08 then FMUL else HALT
  }

  function SelectCustom1(f: Fields): Instruction {
    if f.f3 == 0 then Instruction(VBRANCH, f.rd, f.rs1, f.rs2, 0)
    else if f.f3 == 1 then Instruction(VJOIN, 0, 0, 0, 0)
    else if f.f3 == 2 then Instruction(BARRIER, f.rd, f.rs1, 0, f.immI)
    else Instruction(HALT, 0, 0, 0, 0)
  }

  function Assemble(f: Fields): Instruction {
    if f.major.OP? then Instruction(SelectOp(f.f3, f.f7), f.rd, f.rs1, f.rs2, 0)
    else if f.major.OP_IMM? then Instruction(ADDI, f.rd, f.rs1, 0, f.immI)
    else if f.major.LUI_OP? then Instruction(LUI, f.rd, 0, 0, f.immU)
    else if f.major.LOAD_OP? then Instruction(LW, f.rd, f.rs1, 0, f.immI)
    else if f.major.STORE_OP? then Instruction(SW, 0, f.rs1, f.rs2, f.immS)
    else if f.major.BRANCH_OP? then Instruction(if f.f3 == 0 then BEQ else BNE, 0, f.rs1, f.rs2, f.immB)
    else if f.major.JAL_OP? then Instruction(JAL, f.rd, 0, 0, f.immJ)
    else if f.major.JALR_OP? then Instruction(JALR, f.rd, f.rs1, 0, f.immI)
    else if f.major.OP_FP? then Instruction(SelectFp(f.f7), f.rd, f.rs1, f.rs2, 0)
    else if f.major.CUSTOM0? then Instruction(SelectCustom0(f.f3, f.f7), f.rd, f.rs1, f.rs2, 0)
    else if f.major.CUSTOM1? then SelectCustom1(f)
    else Instruction(HALT, 0, 0, 0, 0)
  }

  /** `decodeInstruction`: every word decodes; unknown major opcodes read as HALT. */
  function Decode(w: Word): Instruction {
    Assemble(FieldsOf(w))
  }

  // ----- Round trip -----

  // The part of an immediate each format has room for, as it reads back.
  function Kept12(imm: Word): Word { Extend12(imm & 0xFFF) }
  function Kept13(imm: Word): Word { Extend13(imm & 0x1FFE) }
  function Kept20(imm: Word): Word { imm & 0xF_FFFF }
  function Kept21(imm: Word): Word { Extend21(imm & 0x1F_FFFE) }

  /** What survives a trip through a word: the operands the format carries, and
      the immediate cut to the format's width. */
  function Carried(i: Instruction): Instruction {
    if i.opcode.ADDI? || i.opcode.LW? || i.opcode.JALR? || i.opcode.BARRIER? then
      Instruction(i.opcode, i.rd, i.rs1, 0, Kept12(i.imm))
    else if i.opcode.SW? then Instruction(SW, 0, i.rs1, i.rs2, Kept12(i.imm))
    else if i.opcode.BEQ? || i.opcode.BNE? then Instruction(i.opcode, 0, i.rs1, i.rs2, Kept13(i.imm))
    else if i.opcode.LUI? then Instruction(LUI, i.rd, 0, 0, Kept20(i.imm))
    else if i.opcode.JAL? then Instruction(JAL, i.rd, 0, 0, Kept21(i.imm))
    else if i.opcode.VJOIN? || i.opcode.HALT? then Instruction(i.opcode, 0, 0, 0, 0)
    else Instruction(i.opcode, i.rd, i.rs1, i.rs2, 0)
  }

  lemma FieldsR(opc: Word, f3: Word, f7: Word, rd: Word, rs1: Word, rs2: Word)
    requires opc < 128 && f3 < 8 && f7 < 128 && rd < 32 && rs1 < 32 && rs2 < 32
    ensures var w := PackR(opc, f3, f7, rd, rs1, rs2);
            OpcBits(w) == opc && F3Bits(w) == f3 && F7Bits(w) == f7
            && RdBits(w) == rd && Rs1Bits(w) == rs1 && Rs2Bits(w) == rs2
  {
  }

  lemma FieldsI(opc: Word, f3: Word, rd: Word, rs1: Word, imm: Word)
    requires opc < 128 && f3 < 8 && rd < 32 && rs1 < 32
    ensures var w := PackI(opc, f3, rd, rs1, imm);
            OpcBits(w) == opc && F3Bits(w) == f3 && RdBits(w) == rd && Rs1Bits(w) == rs1 && ImmI(w) == Kept12(imm)
  {
  }

  lemma FieldsS(opc: Word, f3: Word, rs1: Word, rs2: Word, imm: Word)
    requires opc < 128 && f3 < 8 && rs1 < 32 && rs2 < 32
    ensures var w := PackS(opc, f3, rs1, rs2, imm);
            OpcBits(w) == opc && F3Bits(w) == f3 && Rs1Bits(w) == rs1 && Rs2Bits(w) == rs2 && ImmS(w) == Kept12(imm)
  {
  }

  lemma FieldsB(opc: Word, f3: Word, rs1: Word, rs2: Word, imm: Word)
    requires opc < 128 && f3 < 8 && rs1 < 32 && rs2 < 32
    ensures var w := PackB(opc, f3, rs1, rs2, imm);
            OpcBits(w) == opc && F3Bits(w) == f3 && Rs1Bits(w) == rs1 && Rs2Bits(w) == rs2 && ImmB(w) == Kept13(imm)
  {
  }

  lemma FieldsU(opc: Word, rd: Word, imm: Word)
    requires opc < 128 && rd < 32
    ensures var w := PackU(opc, rd, imm); OpcBits(w) == opc && RdBits(w) == rd && ImmU(w) == Kept20(imm)
  {
  }

  lemma FieldsJ(opc: Word, rd: Word, imm: Word)
    requires opc < 128 && rd < 32
    ensures var w := PackJ(opc, rd, imm); OpcBits(w) == opc && RdBits(w) == rd && ImmJ(w) == Kept21(imm)
  {
  }

  /** `f` shows the constant fields of `i`'s format and the operands it carries. */
  predicate Reads(f: Fields, i: Instruction) {
    var format := FormatOf(i.opcode);
    && f.major == format.major
    && (format.RType? ==> f.f3 == format.f3 && f.f7 == format.f7 && f.rd == i.rd && f.rs1 == i.rs1 && f.rs2 == i.rs2)
    && (format.IType? ==> f.f3 == format.f3 && f.rd == i.rd && f.rs1 == i.rs1 && f.immI == Kept12(i.imm))
    && (format.SType? ==> f.f3 == format.f3 && f.rs1 == i.rs1 && f.rs2 == i.rs2 && f.immS == Kept12(i.imm))
    && (format.BType? ==> f.f3 == format.f3 && f.rs1 == i.rs1 && f.rs2 == i.rs2 && f.immB == Kept13(i.imm))
    && (format.UType? ==> f.rd == i.rd && f.immU == Kept20(i.imm))
    && (format.JType? ==> f.rd == i.rd && f.immJ == Kept21(i.imm))
  }

  lemma AssembleOp(f: Fields, i: Instruction)
    requires Reads(f, i) && FormatOf(i.opcode).major.OP?
    ensures Assemble(f) == Carried(i)
  {
    hide Kept12, Kept13, Kept20, Kept21;
  }

  lemma AssembleCustom0(f: Fields, i: Instruction)
    requires Reads(f, i) && FormatOf(i.opcode).major.CUSTOM0?
    ensures Assemble(f) == Carried(i)
  {
    hide Kept12, Kept13, Kept20, Kept21;
  }

  lemma AssembleCustom1(f: Fields, i: Instruction)
    requires Reads(f, i) && FormatOf(i.opcode).major.CUSTOM1?
    ensures Assemble(f) == Carried(i)
  {
    hide Kept12, Kept13, Kept20, Kept21;
  }

  lemma AssembleI(f: Fields, i: Instruction)
    requires Reads(f, i) && FormatOf(i.opcode).IType? && !FormatOf(i.opcode).major.CUSTOM1?
    ensures Assemble(f) == Carried(i)
  {
    hide Kept12, Kept13, Kept20, Kept21;
  }

  lemma AssembleOther(f: Fields, i: Instruction)
    requires Reads(f, i) && !FormatOf(i.opcode).RType? && !FormatOf(i.opcode).IType?
    ensures Assemble(f) == Carried(i)
  {
    hide Kept12, Kept13, Kept20, Kept21;
  }

  lemma RTypeMajors(op: Opcode)
    requires FormatOf(op).RType?
    ensures FormatOf(op).major.OP? || FormatOf(op).major.CUSTOM0? || FormatOf(op).major.CUSTOM1?
  {
  }

  lemma AssembleReads(f: Fields, i: Instruction)
    requires Reads(f, i)
    ensures Assemble(f) == Carried(i)
  {
    hide *;
    var format := FormatOf(i.opcode);
    if format.major.OP? {
      AssembleOp(f, i);
    } else if format.major.CUSTOM0? {
      AssembleCustom0(f, i);
    } else if format.major.CUSTOM1? {
      AssembleCustom1(f, i);
    } else if format.IType? {
      AssembleI(f, i);
    } else {
      if format.RType? {
        RTypeMajors(i.opcode);
      }
      AssembleOther(f, i);
    }
  }

  lemma EncodeReads(i: Instruction)
    ensures Reads(FieldsOf(Encode(i)), i)
  {
    hide PackR, PackI, PackS, PackB, PackU, PackJ, Kept12, Kept13, Kept20, Kept21;
    hide OpcBits, F3Bits, F7Bits, RdBits, Rs1Bits, Rs2Bits, ImmI, ImmS, ImmB, ImmU, ImmJ;
    hide Bits3, Bits5, Bits7, Number3, Number5, Number7, MajorCode, MajorOf, FormatOf;
    var format := FormatOf(i.opcode);
    MajorRoundTrip(format.major);
    RoundTrip5(i.rd);
    RoundTrip5(i.rs1);
    RoundTrip5(i.rs2);
    var opc, rd, rs1, rs2 := MajorCode(format.major), Bits5(i.rd), Bits5(i.rs1), Bits5(i.rs2);
    match format
    case RType(_, f3, f7) => RoundTrip3(f3); EncodedF7(i.opcode); RoundTrip7(f7); FieldsR(opc, Bits3(f3), Bits7(f7), rd, rs1, rs2);
    case IType(_, f3) => RoundTrip3(f3); FieldsI(opc, Bits3(f3), rd, rs1, i.imm);
    case SType(_, f3) => RoundTrip3(f3); FieldsS(opc, Bits3(f3), rs1, rs2, i.imm);
    case BType(_, f3) => RoundTrip3(f3); FieldsB(opc, Bits3(f3), rs1, rs2, i.imm);
    case UType(_) => FieldsU(opc, rd, i.imm);
    case JType(_) => FieldsJ(opc, rd, i.imm);
  }

  lemma EncodedF7(op: Opcode)
    ensures FormatOf(op).RType? ==> FormatOf(op).f7 == 0 || FormatOf(op).f7 == 1 || FormatOf(op).f7 == 0x20
  {
  }

  /** Decoding an encoded instruction returns its opcode and every operand its format carries. */
  lemma RoundTrip(i: Instruction)
    ensures Decode(Encode(i)) == Carried(i)
  {
    hide Assemble, Carried, Encode, FieldsOf;
    EncodeReads(i);
    AssembleReads(FieldsOf(Encode(i)), i);
  }

  // ----- The two-word form of a large immediate load -----

  /** ADDI from register 0 whose immediate does not fit one word. */
  predicate NeedsExpansion(i: Instruction) {
    i.opcode.ADDI? && i.rs1 == 0 && !Fits12(i.imm)
  }

  function Hi20(imm: Word): Word { (imm + 0x800) >> 12 }
  function Lo12(imm: Word): Word { imm - (Hi20(imm) << 12) }

  function LuiHalf(i: Instruction): Instruction { Instruction(LUI, i.rd, 0, 0, Hi20(i.imm)) }
  function AddiHalf(i: Instruction): Instruction { Instruction(ADDI, i.rd, i.rd, 0, Lo12(i.imm)) }

  /** The words `encodeInstructionExpanded` writes to `out`. */
  function Expand(i: Instruction): (words: seq<Word>)
    ensures 1 <= |words| <= 2
  {
    if NeedsExpansion(i) then [Encode(LuiHalf(i)), Encode(AddiHalf(i))] else [Encode(i)]
  }

  /** `encodeInstructionExpanded`. */
  method EncodeInstructionExpanded(i: Instruction, out: array<Word>) returns (n: nat)
    requires out.Length == 2
    modifies out
    ensures n == |Expand(i)| && out[..n] == Expand(i)
    ensures n == 1 ==> out[1] == old(out[1])
  {
    if !NeedsExpansion(i) {
      out[0] := Encode(i);
      return 1;
    }
    out[0] := Encode(LuiHalf(i));
    out[1] := Encode(AddiHalf(i));
    n := 2;
  }

  /** The split is exact for every 32-bit immediate, and each half fits its format. */
  lemma LiSplit(imm: Word)
    ensures Sum(Upper(Hi20(imm)), Lo12(imm)) == imm
    ensures Hi20(imm) < 0x10_0000 && Fits12(Lo12(imm))
  {
  }

  /** A 12-bit immediate field keeps exactly the immediates in -2048..2047. */
  lemma Extend12Exact(imm: Word)
    ensures Kept12(imm) == imm <==> Fits12(imm)
  {
  }
}

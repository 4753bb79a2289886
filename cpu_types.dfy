/**
 * Types and constants of the R3000A-class CPU core: instruction fields and
 * opcodes, exception codes, the system-control (COP0) register bank with its
 * bit fields and write masks, the general register file and the opaque
 * register files of the geometry coprocessor (GTE).
 */
module CpuTypes {
  import opened Bits
  import opened Bus

  /** A general-purpose register index; `Reg::count` (32) is kept apart as "no register". */
  type Reg = r: nat | r < 32

  const RA: Reg := 31

  /** Reset vector and the two exception vectors (base | 0x80). */
  const RESET_VECTOR: bv32 := 0xBFC0_0000
  const BOOT_EXCEPTION_VECTOR: bv32 := 0xBFC0_0180
  const RAM_EXCEPTION_VECTOR: bv32 := 0x8000_0080

  /**
   * The memory reachable by the core. The source fetches from the exception
   * vector while entering an exception and recurses without bound if that
   * fetch fails; the model's memory therefore always maps both vectors and
   * the reset vector.
   */
  type SystemMemory = m: Memory
    | Mapped(m, RESET_VECTOR) && Mapped(m, BOOT_EXCEPTION_VECTOR) && Mapped(m, RAM_EXCEPTION_VECTOR)
    witness Memory(map[0xBFC0_0000 := 0, 0xBFC0_0180 := 0, 0x8000_0080 := 0])

  // ----- instruction word fields -----

  function OpField(i: bv32): bv32 { i >> 26 }
  function Rs(i: bv32): Reg { ((i >> 21) & 0x1F) as nat }
  function Rt(i: bv32): Reg { ((i >> 16) & 0x1F) as nat }
  function Rd(i: bv32): Reg { ((i >> 11) & 0x1F) as nat }
  function Shamt(i: bv32): (n: nat) ensures n < 32 { ((i >> 6) & 0x1F) as nat }
  function FunctField(i: bv32): bv32 { i & 0x3F }
  /** The raw rt field, which the REGIMM branch form reads as a sub-opcode. */
  function RtField(i: bv32): bv32 { (i >> 16) & 0x1F }
  function ImmZext(i: bv32): bv32 { i & 0xFFFF }
  function ImmSext(i: bv32): bv32 { SignExtend16(Truncate16(i)) }
  function Target(i: bv32): bv32 { i & 0x03FF_FFFF }
  /** `cop.cop_n`: the coprocessor number in bits 26..27. */
  function CopN(i: bv32): bv32 { (i >> 26) & 3 }
  /** `cop.IsCommonInstruction()`: bit 25 clear. */
  predicate IsCommonCopInstruction(i: bv32) { i & 0x0200_0000 == 0 }
  /** `cop.CommonOp()`: bits 21..24. */
  function CopCommonOp(i: bv32): bv32 { (i >> 21) & 0xF }
  /** `cop.Cop0Op()`: bits 0..5. */
  function Cop0Op(i: bv32): bv32 { i & 0x3F }

  const COP_MFC: bv32 := 0x0
  const COP_CFC: bv32 := 0x2
  const COP_MTC: bv32 := 0x4
  const COP_CTC: bv32 := 0x6
  const COP0_RFE: bv32 := 0x10

  // ----- primary opcodes -----

  datatype Opcode =
    | ReservedOp | Special | Addi | Addiu | BCondZ | J | Jal
    | Cop0 | Cop2 | Lwc2 | Swc2
    | Beq | Bne | Blez | Bgtz
    | Slti | Sltiu | Andi | Ori | Xori | Lui
    | Lb | Lh | Lwl | Lw | Lbu | Lhu | Lwr
    | Sb | Sh | Swl | Sw | Swr
    | Cop1 | Cop3 | Lwc0 | Lwc1 | Lwc3 | Swc0 | Swc1 | Swc3

  /** `inst.op`: bits 26..31, with every unlisted value reserved. */
  function DecodeOp(i: bv32): Opcode {
    var op := OpField(i);
    if op == 0x00 then Special else if op == 0x01 then BCondZ
    else if op == 0x02 then J else if op == 0x03 then Jal
    else if op == 0x04 then Beq else if op == 0x05 then Bne
    else if op == 0x06 then Blez else if op == 0x07 then Bgtz
    else if op == 0x08 then Addi else if op == 0x09 then Addiu
    else if op == 0x0A then Slti else if op == 0x0B then Sltiu
    else if op == 0x0C then Andi else if op == 0x0D then Ori
    else if op == 0x0E then Xori else if op == 0x0F then Lui
    else if op == 0x10 then Cop0 else if op == 0x11 then Cop1
    else if op == 0x12 then Cop2 else if op == 0x13 then Cop3
    else if op == 0x20 then Lb else if op == 0x21 then Lh
    else if op == 0x22 then Lwl else if op == 0x23 then Lw
    else if op == 0x24 then Lbu else if op == 0x25 then Lhu
    else if op == 0x26 then Lwr
    else if op == 0x28 then Sb else if op == 0x29 then Sh
    else if op == 0x2A then Swl else if op == 0x2B then Sw
    else if op == 0x2E then Swr
    else if op == 0x30 then Lwc0 else if op == 0x31 then Lwc1
    else if op == 0x32 then Lwc2 else if op == 0x33 then Lwc3
    else if op == 0x38 then Swc0 else if op == 0x39 then Swc1
    else if op == 0x3A then Swc2 else if op == 0x3B then Swc3
    else ReservedOp
  }

  // ----- function codes of the register-format (SPECIAL) opcode -----

  datatype Funct =
    | ReservedFunct | Syscall | Break | Add | Addu | Sub | Subu | Div | Divu
    | Jr | Jalr | Mfhi | Mthi | Mflo | Mtlo | Mult | Multu
    | Sll | Srl | Sra | Sllv | Srlv | Srav | And | Or | Xor | Nor | Slt | Sltu

  /** `inst.r.funct`: bits 0..5, with every unlisted value reserved. */
  function DecodeFunct(i: bv32): Funct {
    var f := FunctField(i);
    if f == 0x00 then Sll else if f == 0x02 then Srl else if f == 0x03 then Sra
    else if f == 0x04 then Sllv else if f == 0x06 then Srlv else if f == 0x07 then Srav
    else if f == 0x08 then Jr else if f == 0x09 then Jalr
    else if f == 0x0C then Funct.Syscall else if f == 0x0D then Break
    else if f == 0x10 then Mfhi else if f == 0x11 then Mthi
    else if f == 0x12 then Mflo else if f == 0x13 then Mtlo
    else if f == 0x18 then Mult else if f == 0x19 then Multu
    else if f == 0x1A then Div else if f == 0x1B then Divu
    else if f == 0x20 then Add else if f == 0x21 then Addu
    else if f == 0x22 then Sub else if f == 0x23 then Subu
    else if f == 0x24 then And else if f == 0x25 then Or
    else if f == 0x26 then Xor else if f == 0x27 then Nor
    else if f == 0x2A then Slt else if f == 0x2B then Sltu
    else ReservedFunct
  }

  /** `Instruction::IsCop2Instruction()`: the instructions routed to the GTE. */
  predicate IsCop2Instruction(i: bv32) {
    DecodeOp(i) in {Cop2, Lwc2, Swc2}
  }

  // ----- exceptions -----

  datatype Exception = INT | MOD | TLBL | TLBS | AdEL | AdES | IBE | DBE | Syscall | BP | RI | CpU | Ov {
    /** The 5-bit code stored in CAUSE.Excode. */
    function Code(): (c: bv32)
      ensures c <= 0x0C
    {
      match this
      case INT => 0x00 case MOD => 0x01 case TLBL => 0x02 case TLBS => 0x03
      case AdEL => 0x04 case AdES => 0x05 case IBE => 0x06 case DBE => 0x07
      case Syscall => 0x08 case BP => 0x09 case RI => 0x0A case CpU => 0x0B
      case Ov => 0x0C
    }
  }

  // ----- system-control coprocessor (COP0) -----

  datatype Cop0Registers = Cop0Registers(
    bpc: bv32, bda: bv32, tar: bv32, badVaddr: bv32, bdam: bv32, bpcm: bv32,
    epc: bv32, prid: bv32, sr: bv32, cause: bv32, dcic: bv32)

  /** COP0 register numbers as the rd field of mfc0/mtc0 names them. */
  const COP0_BPC: Reg := 3
  const COP0_BDA: Reg := 5
  const COP0_JUMPDEST: Reg := 6
  const COP0_DCIC: Reg := 7
  const COP0_BADVADDR: Reg := 8
  const COP0_BDAM: Reg := 9
  const COP0_BPCM: Reg := 11
  const COP0_SR: Reg := 12
  const COP0_CAUSE: Reg := 13
  const COP0_EPC: Reg := 14
  const COP0_PRID: Reg := 15

  /** Bits of SR, CAUSE and DCIC that mtc0 may change. */
  const SR_WRITE_MASK: bv32 := 0xF27F_FF3F
  const CAUSE_WRITE_MASK: bv32 := 0x0000_0300
  const DCIC_WRITE_MASK: bv32 := 0xFF80_F03F

  /** SR.mode_bits: the three (interrupt-enable, user-mode) pairs in bits 0..5. */
  const MODE_BITS_MASK: bv32 := 0x3F

  predicate InterruptsEnabled(sr: bv32) { sr & 0x1 != 0 }          // SR.IEc
  predicate InUserMode(sr: bv32) { sr & 0x2 != 0 }                 // SR.KUc
  predicate BootExceptionVectors(sr: bv32) { sr & 0x0040_0000 != 0 } // SR.BEV
  predicate Cop0UsableInUserMode(sr: bv32) { sr & 0x1000_0000 != 0 } // SR.CU0
  predicate Cop2UsableInUserMode(sr: bv32) { sr & 0x4000_0000 != 0 } // SR.CU2

  /** Replaces the bits of `current` selected by `mask` with those of `value`. */
  function MaskedWrite(current: bv32, value: bv32, mask: bv32): bv32 {
    (current & !mask) | (value & mask)
  }

  /** CAUSE.Excode, bits 2..6. */
  function CauseExcode(cause: bv32): bv32 {
    (cause >> 2) & 0x1F
  }

  /** CAUSE.CE, bits 28..29: the coprocessor number of a coprocessor-unusable exception. */
  function CauseCopNumber(cause: bv32): bv32 {
    (cause >> 28) & 3
  }

  /** CAUSE.BT, bit 30: the branch in whose delay slot the exception occurred was taken. */
  predicate CauseBranchTaken(cause: bv32) {
    cause & 0x4000_0000 != 0
  }

  /** CAUSE.BD, bit 31: the exception occurred in a branch delay slot. */
  predicate CauseBranchDelay(cause: bv32) {
    cause & 0x8000_0000 != 0
  }

  /** The CAUSE fields exception entry rewrites: Excode, CE, BT, BD. */
  const CAUSE_EXCEPTION_FIELDS: bv32 := 0xF000_007C

  // ----- general register file -----

  datatype RegisterFile = RegisterFile(r: seq<bv32>, pc: bv32, npc: bv32, hi: bv32, lo: bv32)

  /**
   * Thirty-two general registers, of which register 0 reads as zero: every
   * operation that builds a new register file has to show that it keeps it so.
   */
  type Registers = f: RegisterFile | |f.r| == 32 && f.r[0] == 0
    witness RegisterFile(seq(32, _ => 0), 0, 0, 0, 0)

  /** The register file after reset: every register, `pc`, `npc`, `hi` and `lo` zero. */
  function ZeroRegisters(): Registers { RegisterFile(seq(32, _ => 0), 0, 0, 0, 0) }

  // ----- geometry coprocessor (GTE), opaque -----

  datatype GteState = GteState(data: seq<bv32>, control: seq<bv32>)

  /** The GTE's 32 data and 32 control registers; their meaning is not modelled. */
  type GteRegisters = g: GteState | |g.data| == 32 && |g.control| == 32
    witness GteState(seq(32, _ => 0), seq(32, _ => 0))

  /** The GTE after `GTE::Core::Reset`: all registers zero. */
  function ZeroGte(): GteRegisters { GteState(seq(32, _ => 0), seq(32, _ => 0)) }

  /** The GTE's command execution, supplied from outside the core. */
  type GteCommand = (bv32, GteRegisters) -> GteRegisters
}

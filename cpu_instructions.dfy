/**
 * Properties of single instructions. Each group of opcodes is first tied to
 * the function `ExecuteInstruction` dispatches it to; the properties are then
 * stated about that function, for every state whose current instruction
 * decodes to the opcode in question.
 */
module CpuInstructions {
  import opened Wrappers
  import opened Bits
  import opened Bus
  import opened CpuTypes
  import opened CpuSpec
  import opened CpuProperties

  // ===== dispatch =====

  /** The register-format instructions are executed by `ExecuteSpecial`. */
  lemma DispatchSpecial(s: CpuState, g: GteCommand)
    requires Valid(s) && DecodeOp(s.latches.currentInstruction) == Special
    ensures !ReachesPanic(s.latches.currentInstruction, s.cop0.sr)
    ensures ExecuteInstruction(s, g) == ExecuteSpecial(s)
  {
  }

  /** addi and addiu are executed by `ExecuteImmediate`. */
  lemma DispatchAddImmediate(s: CpuState, g: GteCommand)
    requires Valid(s) && DecodeOp(s.latches.currentInstruction) in {Addi, Addiu}
    ensures !ReachesPanic(s.latches.currentInstruction, s.cop0.sr)
    ensures ExecuteInstruction(s, g) == ExecuteImmediate(s, DecodeOp(s.latches.currentInstruction))
  {
  }

  /** beq and bne are executed by `ExecuteConditionalBranch`. */
  lemma DispatchBranchOnEquality(s: CpuState, g: GteCommand)
    requires Valid(s) && DecodeOp(s.latches.currentInstruction) in {Beq, Bne}
    ensures !ReachesPanic(s.latches.currentInstruction, s.cop0.sr)
    ensures ExecuteInstruction(s, g) == ExecuteConditionalBranch(s, DecodeOp(s.latches.currentInstruction))
  {
  }

  /** blez and bgtz are executed by `ExecuteConditionalBranch`. */
  lemma DispatchBranchOnSign(s: CpuState, g: GteCommand)
    requires Valid(s) && DecodeOp(s.latches.currentInstruction) in {Blez, Bgtz}
    ensures !ReachesPanic(s.latches.currentInstruction, s.cop0.sr)
    ensures ExecuteInstruction(s, g) == ExecuteConditionalBranch(s, DecodeOp(s.latches.currentInstruction))
  {
  }

  /** The REGIMM branches are executed by `ExecuteBCondZ`. */
  lemma DispatchBCondZ(s: CpuState, g: GteCommand)
    requires Valid(s) && DecodeOp(s.latches.currentInstruction) == BCondZ
    ensures !ReachesPanic(s.latches.currentInstruction, s.cop0.sr)
    ensures ExecuteInstruction(s, g) == ExecuteBCondZ(s)
  {
  }

  /** j is executed by `ExecuteJump` without linking. */
  lemma DispatchJump(s: CpuState, g: GteCommand)
    requires Valid(s) && DecodeOp(s.latches.currentInstruction) == J
    ensures !ReachesPanic(s.latches.currentInstruction, s.cop0.sr)
    ensures ExecuteInstruction(s, g) == ExecuteJump(s, false)
  {
  }

  /** jal is executed by `ExecuteJump` with linking. */
  lemma DispatchJumpAndLink(s: CpuState, g: GteCommand)
    requires Valid(s) && DecodeOp(s.latches.currentInstruction) == Jal
    ensures !ReachesPanic(s.latches.currentInstruction, s.cop0.sr)
    ensures ExecuteInstruction(s, g) == ExecuteJump(s, true)
  {
  }

  /** The COP0 instructions, in kernel mode or with CU0 set, are executed by `ExecuteCop0Instruction`. */
  lemma DispatchCop0(s: CpuState, g: GteCommand)
    requires Valid(s) && DecodeOp(s.latches.currentInstruction) == Cop0
    requires !Cop0Unusable(s.cop0.sr) && !Cop0Unimplemented(s.latches.currentInstruction)
    ensures !ReachesPanic(s.latches.currentInstruction, s.cop0.sr)
    ensures ExecuteInstruction(s, g) == ExecuteCop0Instruction(s)
  {
  }

  // ===== trapping and wrapping arithmetic =====

  /**
   * add writes the wrapped sum to rd unless the sum overflows as a signed
   * value; then it raises Ov and no general register changes.
   */
  lemma AddTrapsOnOverflow(s: CpuState)
    requires Valid(s) && DecodeFunct(s.latches.currentInstruction) == Add
    ensures var i := s.latches.currentInstruction;
      var a, b := ReadReg(s, Rs(i)), ReadReg(s, Rt(i));
      var t := ExecuteSpecial(s);
      if AddOverflow(a, b, WrappingAdd(a, b)) then
        t == RaiseException(s, Ov) && t.regs.r == s.regs.r && CauseExcode(t.cop0.cause) == Ov.Code()
      else
        t == WriteReg(s, Rd(i), WrappingAdd(a, b))
  {
    RaisedByCurrentInstruction(s, Ov);
  }

  /** addu writes the wrapped sum to rd and never traps. */
  lemma AdduWraps(s: CpuState)
    requires Valid(s) && DecodeFunct(s.latches.currentInstruction) == Addu
    ensures var i := s.latches.currentInstruction;
      ExecuteSpecial(s) == WriteReg(s, Rd(i), WrappingAdd(ReadReg(s, Rs(i)), ReadReg(s, Rt(i))))
  {
  }

  /**
   * sub writes the wrapped difference to rd unless it overflows as a signed
   * value; then it raises Ov and no general register changes.
   */
  lemma SubTrapsOnOverflow(s: CpuState)
    requires Valid(s) && DecodeFunct(s.latches.currentInstruction) == Sub
    ensures var i := s.latches.currentInstruction;
      var a, b := ReadReg(s, Rs(i)), ReadReg(s, Rt(i));
      var t := ExecuteSpecial(s);
      if SubOverflow(a, b, WrappingSub(a, b)) then
        t == RaiseException(s, Ov) && t.regs.r == s.regs.r && CauseExcode(t.cop0.cause) == Ov.Code()
      else
        t == WriteReg(s, Rd(i), WrappingSub(a, b))
  {
    RaisedByCurrentInstruction(s, Ov);
  }

  /** subu writes the wrapped difference to rd and never traps. */
  lemma SubuWraps(s: CpuState)
    requires Valid(s) && DecodeFunct(s.latches.currentInstruction) == Subu
    ensures var i := s.latches.currentInstruction;
      ExecuteSpecial(s) == WriteReg(s, Rd(i), WrappingSub(ReadReg(s, Rs(i)), ReadReg(s, Rt(i))))
  {
  }

  /** addi adds the sign-extended immediate into rt, trapping with Ov on signed overflow. */
  lemma AddiTrapsOnOverflow(s: CpuState)
    requires Valid(s)
    ensures var i := s.latches.currentInstruction;
      var a := ReadReg(s, Rs(i));
      var t := ExecuteImmediate(s, Addi);
      if AddOverflow(a, ImmSext(i), WrappingAdd(a, ImmSext(i))) then
        t == RaiseException(s, Ov) && t.regs.r == s.regs.r && CauseExcode(t.cop0.cause) == Ov.Code()
      else
        t == WriteReg(s, Rt(i), WrappingAdd(a, ImmSext(i)))
  {
    var a := ReadReg(s, Rs(s.latches.currentInstruction));
    if AddOverflow(a, ImmSext(s.latches.currentInstruction), WrappingAdd(a, ImmSext(s.latches.currentInstruction))) {
      RaisedByCurrentInstruction(s, Ov);
    }
  }

  /** addiu adds the sign-extended immediate into rt and never traps. */
  lemma AddiuWraps(s: CpuState)
    requires Valid(s)
    ensures var i := s.latches.currentInstruction;
      ExecuteImmediate(s, Addiu) == WriteReg(s, Rt(i), WrappingAdd(ReadReg(s, Rs(i)), ImmSext(i)))
  {
  }

  /** div and divu only write hi and lo: a zero divisor does not trap. */
  lemma DivideNeverTraps(s: CpuState)
    requires Valid(s)
    requires DecodeFunct(s.latches.currentInstruction) == Div || DecodeFunct(s.latches.currentInstruction) == Divu
    ensures var i := s.latches.currentInstruction;
      var a, b := ReadReg(s, Rs(i)), ReadReg(s, Rt(i));
      var q := if DecodeFunct(i) == Div then SignedDivide(a, b) else UnsignedDivide(a, b);
      ExecuteSpecial(s) == s.(regs := s.regs.(hi := q.hi, lo := q.lo))
  {
  }

  /**
   * sra and srav shift the signed value of rt right by the shift field
   * (sra) or by rs's low five bits (srav), rounding down: for the `q` with
   * `q * 2^n <= rt < (q + 1) * 2^n`, rd receives `q`.
   */
  lemma ShiftRightArithmeticDivides(s: CpuState, q: int)
    requires Valid(s) && DecodeFunct(s.latches.currentInstruction) in {Sra, Srav}
    requires var i := s.latches.currentInstruction;
      var n := if DecodeFunct(i) == Sra then Shamt(i) else ShiftAmount(ReadReg(s, Rs(i)));
      q * Pow2(n) <= Signed(ReadReg(s, Rt(i))) < (q + 1) * Pow2(n)
    ensures var i := s.latches.currentInstruction;
      ExecuteSpecial(s) == WriteReg(s, Rd(i), ToWord(q))
  {
    var i := s.latches.currentInstruction;
    var n := if DecodeFunct(i) == Sra then Shamt(i) else ShiftAmount(ReadReg(s, Rs(i)));
    ShiftRightArithmeticFloors(ReadReg(s, Rt(i)), n, q);
  }

  /**
   * mult and multu write the whole 64-bit product of rs and rt (read as
   * `s32` or as `u32`) into hi:lo: for the `h` and `l` with
   * `rs * rt == h * 2^32 + l` and `0 <= l < 2^32`, hi receives `h` and lo
   * receives `l`. No general register changes.
   */
  lemma MultiplyWritesProduct(s: CpuState, h: int, l: int)
    requires Valid(s) && DecodeFunct(s.latches.currentInstruction) in {Mult, Multu}
    requires 0 <= l < 0x1_0000_0000
    requires var i := s.latches.currentInstruction;
      var a, b := ReadReg(s, Rs(i)), ReadReg(s, Rt(i));
      (if DecodeFunct(i) == Mult then Signed(a) * Signed(b) else a as int * b as int) == h * 0x1_0000_0000 + l
    ensures ExecuteSpecial(s) == s.(regs := s.regs.(hi := ToWord(h), lo := ToWord(l)))
  {
    var i := s.latches.currentInstruction;
    var a, b := ReadReg(s, Rs(i)), ReadReg(s, Rt(i));
    if DecodeFunct(i) == Mult {
      SignedMultiplyProduct(a, b, h, l);
    } else {
      UnsignedMultiplyProduct(a, b, h, l);
    }
  }

  /**
   * div with a nonzero divisor, other than 0x80000000 / -1: for the `q` and
   * `r` of C++'s truncating division of rs by rt (as `s32`), lo receives
   * `q` and hi receives `r`.
   */
  lemma DivWritesQuotient(s: CpuState, q: int, r: int)
    requires Valid(s) && DecodeFunct(s.latches.currentInstruction) == Div
    requires var i := s.latches.currentInstruction;
      var n, d := Signed(ReadReg(s, Rs(i))), Signed(ReadReg(s, Rt(i)));
      TruncatedDivision(n, d, q, r) && !(n == -0x8000_0000 && d == -1)
    ensures ExecuteSpecial(s) == s.(regs := s.regs.(hi := ToWord(r), lo := ToWord(q)))
  {
    var i := s.latches.currentInstruction;
    SignedDivideTruncates(ReadReg(s, Rs(i)), ReadReg(s, Rt(i)), q, r);
  }

  /**
   * divu with a nonzero divisor: for the `q` and `r` with
   * `rs == q * rt + r` and `0 <= r < rt` (as `u32`), lo receives `q` and hi
   * receives `r`.
   */
  lemma DivuWritesQuotient(s: CpuState, q: int, r: int)
    requires Valid(s) && DecodeFunct(s.latches.currentInstruction) == Divu
    requires var i := s.latches.currentInstruction;
      var n, d := ReadReg(s, Rs(i)) as int, ReadReg(s, Rt(i)) as int;
      n == q * d + r && 0 <= r < d
    ensures ExecuteSpecial(s) == s.(regs := s.regs.(hi := ToWord(r), lo := ToWord(q)))
  {
    var i := s.latches.currentInstruction;
    UnsignedDivideTruncates(ReadReg(s, Rs(i)), ReadReg(s, Rt(i)), q, r);
  }

  /** mfhi and mflo copy hi or lo into rd; mthi and mtlo copy rs into hi or lo. */
  lemma MoveHiLo(s: CpuState)
    requires Valid(s)
    ensures var i := s.latches.currentInstruction;
      var f := DecodeFunct(i);
      var t := ExecuteSpecial(s);
      && (f == Mfhi ==> t == WriteReg(s, Rd(i), s.regs.hi))
      && (f == Mflo ==> t == WriteReg(s, Rd(i), s.regs.lo))
      && (f == Mthi ==> t == s.(regs := s.regs.(hi := ReadReg(s, Rs(i)))))
      && (f == Mtlo ==> t == s.(regs := s.regs.(lo := ReadReg(s, Rs(i)))))
  {
  }

  // ===== loads and stores =====

  /** lw is executed by `ExecuteLoad`, from the match arm lb, lh, lbu and lhu share. */
  lemma DispatchLoad(s: CpuState, g: GteCommand)
    requires Valid(s) && DecodeOp(s.latches.currentInstruction) == Lw
    ensures !ReachesPanic(s.latches.currentInstruction, s.cop0.sr)
    ensures ExecuteInstruction(s, g) == ExecuteLoad(s, Lw)
  {
  }

  /**
   * A load from an aligned, mapped address writes the extended lane to rt
   * through the load delay; a misaligned address raises AdEL and an unmapped
   * one DBE, and then no general register changes and no load is pending.
   */
  lemma LoadWritesBack(s: CpuState, op: Opcode)
    requires Valid(s) && op in {Lb, Lh, Lw, Lbu, Lhu}
    ensures var i := s.latches.currentInstruction;
      var size, addr := LoadSize(op), EffectiveAddress(s);
      var t := ExecuteLoad(s, op);
      if Aligned(size, addr) && Mapped(s.bus, addr) then
        Read(s.bus, size, addr).Some?
        && t == WriteRegDelayed(s, Rt(i), LoadExtend(op, Read(s.bus, size, addr).value))
      else
        && t.regs.r == s.regs.r && t.loadDelay.nextReg == NO_REG && t.cop0.epc == FaultingPc(s)
        && CauseExcode(t.cop0.cause) == (if Aligned(size, addr) then DBE else AdEL).Code()
  {
    var size, addr := LoadSize(op), EffectiveAddress(s);
    if !Aligned(size, addr) {
      ReadMemoryMisaligned(s, size, addr);
    } else if !Mapped(s.bus, addr) {
      ReadMemoryBusError(s, size, addr);
    } else {
      ReadMemorySucceeds(s, size, addr);
    }
  }

  /** lb keeps the lane's low byte and copies its bit 7 into bits 8..31. */
  lemma LoadByteSignExtends(lane: bv32)
    ensures LoadExtend(Lb, lane) & 0xFF == lane & 0xFF
    ensures LoadExtend(Lb, lane) & 0xFFFF_FF00 == (if lane & 0x80 != 0 then 0xFFFF_FF00 else 0)
  {
  }

  /** lh keeps the lane's low half-word and copies its bit 15 into bits 16..31. */
  lemma LoadHalfWordSignExtends(lane: bv32)
    ensures LoadExtend(Lh, lane) & 0xFFFF == lane & 0xFFFF
    ensures LoadExtend(Lh, lane) & 0xFFFF_0000 == (if lane & 0x8000 != 0 then 0xFFFF_0000 else 0)
  {
    HalfWordSignExtends(lane);
  }

  /** lbu and lhu keep the low byte or half-word and clear the rest; lw keeps the word. */
  lemma LoadUnsignedZeroExtends(lane: bv32)
    ensures LoadExtend(Lbu, lane) == lane & 0xFF
    ensures LoadExtend(Lhu, lane) == lane & 0xFFFF
    ensures LoadExtend(Lw, lane) == lane
  {
  }

  /** sb and sh hand the bus rt's low byte or half-word; sw the whole word. */
  lemma StoreLaneBits(value: bv32)
    ensures StoreLane(Sb, value) == value & 0xFF
    ensures StoreLane(Sh, value) == value & 0xFFFF
    ensures StoreLane(Sw, value) == value
  {
  }

  /**
   * sb, sh and sw store `StoreLane` of rt at the effective address when it
   * is aligned and mapped, changing memory and nothing else.
   */
  lemma StoreWrites(s: CpuState, op: Opcode)
    requires op in {Sb, Sh, Sw}
    requires Aligned(LoadSize(op), EffectiveAddress(s)) && Mapped(s.bus, EffectiveAddress(s))
    ensures var size, addr := LoadSize(op), EffectiveAddress(s);
      var lane := StoreLane(op, ReadReg(s, Rt(s.latches.currentInstruction)));
      && Write(s.bus, size, addr, lane).Some?
      && ExecuteStore(s, op) == s.(bus := Write(s.bus, size, addr, lane).value)
  {
    var size, addr := LoadSize(op), EffectiveAddress(s);
    var lane := StoreLane(op, ReadReg(s, Rt(s.latches.currentInstruction)));
    WriteMemorySucceeds(s, size, addr, lane);
  }

  /**
   * Otherwise they raise AdES (misaligned) or DBE (unmapped); memory and the
   * general registers are unchanged.
   */
  lemma StoreFaults(s: CpuState, op: Opcode)
    requires op in {Sb, Sh, Sw}
    requires !(Aligned(LoadSize(op), EffectiveAddress(s)) && Mapped(s.bus, EffectiveAddress(s)))
    ensures var t := ExecuteStore(s, op);
      && t.regs.r == s.regs.r && t.bus == s.bus && t.cop0.epc == FaultingPc(s)
      && CauseExcode(t.cop0.cause) == (if Aligned(LoadSize(op), EffectiveAddress(s)) then DBE else AdES).Code()
  {
    var size, addr := LoadSize(op), EffectiveAddress(s);
    var lane := StoreLane(op, ReadReg(s, Rt(s.latches.currentInstruction)));
    if !Aligned(size, addr) {
      WriteMemoryMisaligned(s, size, addr, lane);
    } else {
      WriteMemoryBusError(s, size, addr, lane);
    }
  }

  // ===== traps =====

  /** A reserved primary opcode raises a reserved-instruction exception. */
  lemma ReservedOpcodeTraps(s: CpuState, g: GteCommand)
    requires Valid(s) && DecodeOp(s.latches.currentInstruction) == ReservedOp
    ensures !ReachesPanic(s.latches.currentInstruction, s.cop0.sr)
    ensures ExecuteInstruction(s, g) == RaiseException(s, RI)
  {
  }

  /** syscall, break and a reserved function code raise Syscall, BP and RI. */
  lemma SpecialTraps(s: CpuState)
    requires Valid(s)
    ensures DecodeFunct(s.latches.currentInstruction) == Funct.Syscall ==> ExecuteSpecial(s) == RaiseException(s, Exception.Syscall)
    ensures DecodeFunct(s.latches.currentInstruction) == Break ==> ExecuteSpecial(s) == RaiseException(s, BP)
    ensures DecodeFunct(s.latches.currentInstruction) == ReservedFunct ==> ExecuteSpecial(s) == RaiseException(s, RI)
  {
  }

  /** In user mode without SR.CU0, a COP0 instruction raises CpU instead of executing. */
  lemma Cop0UnusableTraps(s: CpuState, g: GteCommand)
    requires Valid(s) && DecodeOp(s.latches.currentInstruction) == Cop0 && Cop0Unusable(s.cop0.sr)
    ensures !ReachesPanic(s.latches.currentInstruction, s.cop0.sr)
    ensures ExecuteInstruction(s, g) == RaiseException(s, CpU)
  {
  }

  /** In user mode without SR.CU2, a COP2 instruction raises CpU instead of executing. */
  lemma Cop2UnusableTraps(s: CpuState, g: GteCommand)
    requires Valid(s) && DecodeOp(s.latches.currentInstruction) == Cop2 && Cop2Unusable(s.cop0.sr)
    ensures !ReachesPanic(s.latches.currentInstruction, s.cop0.sr)
    ensures ExecuteInstruction(s, g) == RaiseException(s, CpU)
  {
  }

  /** In user mode without SR.CU2, lwc2 raises CpU instead of loading. */
  lemma Lwc2UnusableTraps(s: CpuState, g: GteCommand)
    requires Valid(s) && DecodeOp(s.latches.currentInstruction) == Lwc2 && Cop2Unusable(s.cop0.sr)
    ensures !ReachesPanic(s.latches.currentInstruction, s.cop0.sr)
    ensures ExecuteInstruction(s, g) == RaiseException(s, CpU)
  {
  }

  /** In user mode without SR.CU2, swc2 raises CpU instead of storing. */
  lemma Swc2UnusableTraps(s: CpuState, g: GteCommand)
    requires Valid(s) && DecodeOp(s.latches.currentInstruction) == Swc2 && Cop2Unusable(s.cop0.sr)
    ensures !ReachesPanic(s.latches.currentInstruction, s.cop0.sr)
    ensures ExecuteInstruction(s, g) == RaiseException(s, CpU)
  {
  }

  /**
   * The coprocessor number of COP0 and GTE instructions, which
   * `RaisedByCurrentInstruction` shows CAUSE.CE records: 0 and 2.
   */
  lemma CoprocessorNumbers(i: bv32)
    ensures DecodeOp(i) == Cop0 ==> CopN(i) == 0
    ensures DecodeOp(i) in {Cop2, Lwc2, Swc2} ==> CopN(i) == 2
  {
  }

  // ===== system-control instructions =====

  /** mfc0 of a register the core does not implement raises a reserved-instruction exception. */
  lemma Mfc0UnknownRegister(s: CpuState)
    requires Valid(s) && IsCommonCopInstruction(s.latches.currentInstruction) && CopCommonOp(s.latches.currentInstruction) == COP_MFC
    requires ReadCop0Reg(s.cop0, Rd(s.latches.currentInstruction)).None?
    ensures ExecuteCop0Instruction(s) == RaiseException(s, RI)
  {
  }

  /** mfc0 of an implemented register loads its value into rt through the load delay. */
  lemma Mfc0KnownRegister(s: CpuState)
    requires Valid(s) && IsCommonCopInstruction(s.latches.currentInstruction) && CopCommonOp(s.latches.currentInstruction) == COP_MFC
    requires ReadCop0Reg(s.cop0, Rd(s.latches.currentInstruction)).Some?
    ensures var i := s.latches.currentInstruction;
      ExecuteCop0Instruction(s) == WriteRegDelayed(s, Rt(i), ReadCop0Reg(s.cop0, Rd(i)).value)
  {
  }

  /** mtc0 writes rt's value into the named COP0 register under its write mask, and nothing else. */
  lemma Mtc0Writes(s: CpuState)
    requires Valid(s) && IsCommonCopInstruction(s.latches.currentInstruction) && CopCommonOp(s.latches.currentInstruction) == COP_MTC
    ensures var i := s.latches.currentInstruction;
      ExecuteCop0Instruction(s) == s.(cop0 := WriteCop0Reg(s.cop0, Rd(i), ReadReg(s, Rt(i))))
  {
  }

  /** rfe pops the mode stack and changes nothing else. */
  lemma RfePopsModeStack(s: CpuState)
    requires Valid(s) && !IsCommonCopInstruction(s.latches.currentInstruction) && Cop0Op(s.latches.currentInstruction) == COP0_RFE
    ensures ExecuteCop0Instruction(s) == s.(cop0 := s.cop0.(sr := PopModeStack(s.cop0.sr)))
  {
  }

  // ===== branches and jumps =====

  /**
   * beq, bne, blez, bgtz: the next instruction is a delay slot whether or not
   * the branch is taken; a taken branch redirects the fetch after it to the
   * target, an untaken one leaves it alone. No register changes.
   */
  lemma ConditionalBranch(s: CpuState, op: Opcode)
    ensures var t := ExecuteConditionalBranch(s, op);
      var taken := BranchTaken(s, op);
      && t.latches.nextIsBranchDelaySlot
      && t.regs.npc == (if taken then BranchTarget(s) else s.regs.npc)
      && t.latches.branchWasTaken == (taken || s.latches.branchWasTaken)
      && t.regs.r == s.regs.r
  {
    if BranchTaken(s, op) {
    } else {
    }
  }

  /**
   * bltzal and bgezal write the return address into ra even when they do not
   * branch; bltz and bgez leave the registers alone.
   */
  lemma BCondZLinks(s: CpuState)
    ensures var t := ExecuteBCondZ(s);
      var i := s.latches.currentInstruction;
      var taken := BCondZTaken(RtField(i), ReadReg(s, Rs(i)));
      && t.latches.nextIsBranchDelaySlot
      && t.regs.npc == (if taken then BranchTarget(s) else s.regs.npc)
      && t.regs.r == (if RtField(i) & 0x1E == 0x10 then s.regs.r[RA := s.regs.npc] else s.regs.r)
  {
  }

  /**
   * jr and jalr jump to rs's value (as read before jalr's link), making the
   * next instruction a taken branch's delay slot; jalr writes npc into rd
   * (unless rd is r0) and no other register changes.
   */
  lemma JumpRegister(s: CpuState)
    requires Valid(s) && DecodeFunct(s.latches.currentInstruction) in {Jr, Jalr}
    ensures var i := s.latches.currentInstruction;
      var link := DecodeFunct(i) == Jalr && Rd(i) != 0;
      var t := ExecuteSpecial(s);
      && t.latches.nextIsBranchDelaySlot && t.latches.branchWasTaken
      && t.regs.npc == ReadReg(s, Rs(i))
      && t.regs.r == (if link then s.regs.r[Rd(i) := s.regs.npc] else s.regs.r)
      && t.regs.pc == s.regs.pc && t.regs.hi == s.regs.hi && t.regs.lo == s.regs.lo
      && t.cop0 == s.cop0 && t.bus == s.bus && t.loadDelay == s.loadDelay
  {
  }

  /** j and jal jump within the 256 MiB region of the delay slot; jal links npc into ra. */
  lemma Jumps(s: CpuState, link: bool)
    ensures var t := ExecuteJump(s, link);
      && t.latches.nextIsBranchDelaySlot && t.latches.branchWasTaken
      && t.regs.npc == JumpTarget(s)
      && t.regs.r == (if link then s.regs.r[RA := s.regs.npc] else s.regs.r)
  {
  }
}

/**
 * Properties of the CPU core model: what each operation of `CpuSpec`
 * promises beyond its own definition, stated over all inputs.
 */
module CpuProperties {
  import opened Wrappers
  import opened Bits
  import opened Bus
  import opened CpuTypes
  import opened CpuSpec

  // ===== register file and load delay =====

  /**
   * A write is visible to a later read of the same register, unless that
   * register is shadowed by the load delay or is register 0; no other
   * register changes.
   */
  lemma ReadAfterWriteReg(s: CpuState, rd: Reg, value: bv32, k: Reg)
    ensures ReadReg(WriteReg(s, rd, value), k)
            == if k == rd && rd != 0 && k != s.loadDelay.reg then value else ReadReg(s, k)
  {
  }

  /**
   * The load delay slot: the instruction right after a load still sees the
   * register's previous value; the one after that sees the loaded value.
   */
  lemma LoadDelayVisibility(s: CpuState, rd: Reg, value: bv32)
    requires Valid(s) && rd != 0
    ensures ReadReg(PromoteLoadDelay(WriteRegDelayed(s, rd, value)), rd) == ReadReg(s, rd)
    ensures ReadReg(PromoteLoadDelay(PromoteLoadDelay(WriteRegDelayed(s, rd, value))), rd) == value
    ensures forall k: Reg :: k != rd ==> ReadReg(PromoteLoadDelay(WriteRegDelayed(s, rd, value)), k) == s.regs.r[k]
  {
  }

  // ===== arithmetic =====

  /**
   * `AddOverflow` is two's-complement overflow: the operands have the same
   * sign and the wrapped sum has the other one.
   */
  lemma AddOverflowIsSignedOverflow(a: bv32, b: bv32)
    ensures AddOverflow(a, b, a + b) <==> IsNegative(a) == IsNegative(b) && IsNegative(a + b) != IsNegative(a)
  {
  }

  /**
   * `SubOverflow` is two's-complement overflow of a - b: the operands have
   * different signs and the wrapped difference has the sign of b.
   */
  lemma SubOverflowIsSignedOverflow(a: bv32, b: bv32)
    ensures SubOverflow(a, b, a - b) <==> IsNegative(a) != IsNegative(b) && IsNegative(a - b) != IsNegative(a)
  {
  }

  /**
   * `SignedLess` is the `s32` comparison: a negative word is below every
   * non-negative one, and words of the same sign compare as unsigned.
   */
  lemma SignedLessBySign(a: bv32, b: bv32)
    ensures SignedLess(a, b) <==> if IsNegative(a) != IsNegative(b) then IsNegative(a) else a < b
    ensures SignedLess(0xFFFF_FFFF, 0) && SignedLess(0x8000_0000, 0x7FFF_FFFF) && !SignedLess(0, 0xFFFF_FFFF)
  {
  }

  /** Signed overflow is not unsigned carry: the boundary cases of both. */
  lemma OverflowBoundaries()
    ensures AddOverflow(0x7FFF_FFFF, 1, 0x7FFF_FFFF + 1)
    ensures !AddOverflow(0xFFFF_FFFF, 1, 0xFFFF_FFFF + 1)
    ensures SubOverflow(0x8000_0000, 1, 0x8000_0000 - 1)
    ensures !SubOverflow(0, 1, 0 - 1)
  {
  }

  /** `ToWord` undoes the unsigned reading of a word. */
  lemma UnsignedWordRoundTrip(x: bv32)
    ensures ToWord(x as int) == x
  {
    UnsignedRoundTrip(x);
  }

  /** `ToWord` undoes the signed (two's-complement) reading of a word. */
  lemma SignedWordRoundTrip(x: bv32)
    ensures ToWord(Signed(x)) == x
  {
    UnsignedRoundTrip(x);
    SignedModulo(x as int);
    assert Signed(x) % 0x1_0000_0000 == x as int;
  }

  /**
   * div's fixed results: a zero divisor leaves the dividend in hi and puts
   * 0xFFFFFFFF (dividend >= 0) or 1 in lo, for divu always 0xFFFFFFFF; the
   * unrepresentable 0x80000000 / -1 gives lo = 0x80000000 and hi = 0.
   */
  lemma DivideSpecialCases(num: bv32)
    ensures SignedDivide(num, 0) == HiLo(num, if Signed(num) >= 0 then 0xFFFF_FFFF else 1)
    ensures UnsignedDivide(num, 0) == HiLo(num, 0xFFFF_FFFF)
    ensures SignedDivide(0x8000_0000, 0xFFFF_FFFF) == HiLo(0, 0x8000_0000)
  {
  }

  /**
   * Any other div follows C++'s rule: for the `q` and `r` with
   * `num == q * denom + r` (as `s32` values), `|r| < |denom|` and `r` zero
   * or of the dividend's sign, lo holds `q` and hi holds `r`; `q` fits in
   * an `s32`, so lo read as `s32` is the quotient itself.
   */
  lemma SignedDivideTruncates(num: bv32, denom: bv32, q: int, r: int)
    requires TruncatedDivision(Signed(num), Signed(denom), q, r)
    requires !(Signed(num) == -0x8000_0000 && Signed(denom) == -1)
    ensures SignedDivide(num, denom) == HiLo(ToWord(r), ToWord(q))
    ensures -0x8000_0000 <= q < 0x8000_0000
  {
    SignedQuotientFits(Signed(num), Signed(denom), q, r);
  }

  /**
   * Any divu with a nonzero divisor: for the `q` and `r` with
   * `num == q * denom + r` and `0 <= r < denom` (as `u32` values), lo holds
   * `q` and hi holds `r`, and `q` fits in a `u32`.
   */
  lemma UnsignedDivideTruncates(num: bv32, denom: bv32, q: int, r: int)
    requires num as int == q * denom as int + r && 0 <= r < denom as int
    ensures UnsignedDivide(num, denom) == HiLo(ToWord(r), ToWord(q))
    ensures 0 <= q < 0x1_0000_0000
  {
    UnsignedQuotientFits(num as int, denom as int, q, r);
  }

  /**
   * mult: hi and lo are the two words of the 64-bit product of the operands
   * read as `s32`. For the `h` and `l` with `product == h * 2^32 + l` and
   * `0 <= l < 2^32`, lo holds `l` and hi holds `h`, which fits in an `s32`:
   * the product is kept whole.
   */
  lemma SignedMultiplyProduct(lhs: bv32, rhs: bv32, h: int, l: int)
    requires Signed(lhs) * Signed(rhs) == h * 0x1_0000_0000 + l && 0 <= l < 0x1_0000_0000
    ensures SignedMultiply(lhs, rhs) == HiLo(ToWord(h), ToWord(l))
    ensures -0x4000_0000 <= h <= 0x4000_0000
  {
    ProductSplits(Signed(lhs) * Signed(rhs), h, l);
    SignedProductBound(Signed(lhs), Signed(rhs));
  }

  /** multu: the same for the operands read as `u32`; hi fits in a `u32`. */
  lemma UnsignedMultiplyProduct(lhs: bv32, rhs: bv32, h: int, l: int)
    requires lhs as int * rhs as int == h * 0x1_0000_0000 + l && 0 <= l < 0x1_0000_0000
    ensures UnsignedMultiply(lhs, rhs) == HiLo(ToWord(h), ToWord(l))
    ensures 0 <= h < 0x1_0000_0000
  {
    ProductSplits(lhs as int * rhs as int, h, l);
    UnsignedProductBound(lhs as int, rhs as int);
  }

  /**
   * sra is division by 2^n rounded down: for the `q` with
   * `q * 2^n <= value < (q + 1) * 2^n` (value read as `s32`) the result is
   * `q`, which has the sign of the value and lies between it and zero.
   */
  lemma ShiftRightArithmeticFloors(x: bv32, n: nat, q: int)
    requires n < 32 && q * Pow2(n) <= Signed(x) < (q + 1) * Pow2(n)
    ensures ShiftRightArithmetic(x, n) == ToWord(q)
    ensures q < 0 <==> Signed(x) < 0
    ensures Signed(x) <= q <= 0 || 0 <= q <= Signed(x)
  {
    FloorDivision(Signed(x), Pow2(n), q);
  }

  /** A masked write takes the masked bits from the value and keeps the others. */
  lemma MaskedWriteBits(current: bv32, value: bv32, mask: bv32)
    ensures MaskedWrite(current, value, mask) & mask == value & mask
    ensures MaskedWrite(current, value, mask) & !mask == current & !mask
  {
  }

  // ===== exception entry =====

  /**
   * Exception entry: EPC holds the faulting instruction's address (the
   * branch's, one word back, inside a delay slot, where TAR takes the delay
   * slot's address), CAUSE and SR are updated, the other COP0 registers and
   * the general registers are kept, the load delays and delay-slot flags are
   * dropped, and the instruction at the exception vector has been fetched.
   */
  lemma ExceptionEntry(s: CpuState, excode: Exception, epc: bv32, bd: bool, bt: bool, ce: bv32)
    ensures var t := RaiseExceptionAt(s, excode, epc, bd, bt, ce);
      && t.cop0.epc == (if bd then WrappingSub(epc, 4) else epc)
      && t.cop0.tar == (if bd then s.regs.pc else s.cop0.tar)
      && t.cop0.cause == CauseOnException(s.cop0.cause, excode, bd, bt, ce)
      && t.cop0.sr == PushModeStack(s.cop0.sr)
      && t.cop0.(epc := s.cop0.epc, tar := s.cop0.tar, cause := s.cop0.cause, sr := s.cop0.sr) == s.cop0
      && t.regs.pc == GetExceptionVector(s.cop0.sr)
      && t.regs.npc == WrappingAdd(t.regs.pc, 4)
      && Read(s.bus, Word, t.regs.pc) == Some(t.latches.nextInstruction)
      && t.regs.r == s.regs.r && t.regs.hi == s.regs.hi && t.regs.lo == s.regs.lo
      && t.loadDelay.reg == NO_REG && t.loadDelay.nextReg == NO_REG
      && !t.latches.branchWasTaken && !t.latches.nextIsBranchDelaySlot
      && t.bus == s.bus && t.gte == s.gte && t.cacheControl == s.cacheControl
  {
    var sr := PushModeStack(s.cop0.sr);
    ModeStackPush(s.cop0.sr);
    assert BootExceptionVectors(sr) == BootExceptionVectors(s.cop0.sr);
  }

  /**
   * Exception entry is `FlushPipeline` from the exception vector with the
   * updated COP0 registers: the fetch it performs there never fails.
   */
  lemma ExceptionFlushesPipeline(s: CpuState, excode: Exception, epc: bv32, bd: bool, bt: bool, ce: bv32)
    ensures var c := EnterException(s, excode, epc, bd, bt, ce);
      RaiseExceptionAt(s, excode, epc, bd, bt, ce) == FlushPipeline(s.(cop0 := c, regs := s.regs.(npc := GetExceptionVector(c.sr))))
  {
  }


  /**
   * The CAUSE value exception entry writes records the exception code, the
   * coprocessor number and the two delay-slot flags, and keeps every other
   * field (the pending-interrupt bits among them).
   */
  lemma CauseFields(cause: bv32, excode: Exception, bd: bool, bt: bool, ce: bv32)
    ensures CauseExcode(CauseOnException(cause, excode, bd, bt, ce)) == excode.Code()
    ensures CauseCopNumber(CauseOnException(cause, excode, bd, bt, ce)) == ce & 3
    ensures CauseBranchDelay(CauseOnException(cause, excode, bd, bt, ce)) == bd
    ensures CauseBranchTaken(CauseOnException(cause, excode, bd, bt, ce)) == bt
    ensures CauseOnException(cause, excode, bd, bt, ce) & !CAUSE_EXCEPTION_FIELDS == cause & !CAUSE_EXCEPTION_FIELDS
  {
  }

  // ===== the exception mode stack =====

  /**
   * Exception entry pushes the (KU, IE) stack: the current pair becomes the
   * previous one, the previous one becomes the old one, and the CPU enters
   * kernel mode with interrupts disabled. Bits above the stack are kept.
   */
  lemma ModeStackPush(sr: bv32)
    ensures PushModeStack(sr) & 3 == 0
    ensures (PushModeStack(sr) >> 2) & 3 == sr & 3
    ensures (PushModeStack(sr) >> 4) & 3 == (sr >> 2) & 3
    ensures PushModeStack(sr) & !MODE_BITS_MASK == sr & !MODE_BITS_MASK
  {
  }

  /** rfe pops the stack: previous becomes current, old becomes previous and stays old. */
  lemma ModeStackPop(sr: bv32)
    ensures PopModeStack(sr) & 3 == (sr >> 2) & 3
    ensures (PopModeStack(sr) >> 2) & 3 == (sr >> 4) & 3
    ensures (PopModeStack(sr) >> 4) & 3 == (sr >> 4) & 3
    ensures PopModeStack(sr) & !MODE_BITS_MASK == sr & !MODE_BITS_MASK
  {
  }

  /** rfe undoes exception entry on the current and previous pairs. */
  lemma RfeUndoesExceptionEntry(sr: bv32)
    ensures PopModeStack(PushModeStack(sr)) & 0xF == sr & 0xF
    ensures PopModeStack(PushModeStack(sr)) & !MODE_BITS_MASK == sr & !MODE_BITS_MASK
  {
  }

  // ===== instruction fetch and the memory gateway =====

  /** A fetch from a misaligned npc raises AdEL, records npc in BadVaddr and in EPC, outside any delay slot. */
  lemma FetchMisaligned(s: CpuState)
    requires s.regs.npc & 3 != 0
    ensures var (t, fetched) := FetchInstruction(s);
      && !fetched
      && t.cop0.badVaddr == s.regs.npc && t.cop0.epc == s.regs.npc
      && CauseExcode(t.cop0.cause) == AdEL.Code() && !CauseBranchDelay(t.cop0.cause)
      && t.regs.r == s.regs.r
  {
    var u := s.(cop0 := s.cop0.(badVaddr := s.regs.npc));
    ExceptionEntry(u, AdEL, s.regs.npc, false, false, 0);
    CauseFields(u.cop0.cause, AdEL, false, false, 0);
  }

  /** A fetch the bus cannot serve raises IBE with EPC = npc; BadVaddr is left alone. */
  lemma FetchBusError(s: CpuState)
    requires s.regs.npc & 3 == 0 && !Mapped(s.bus, s.regs.npc)
    ensures var (t, fetched) := FetchInstruction(s);
      && !fetched
      && t.cop0.badVaddr == s.cop0.badVaddr && t.cop0.epc == s.regs.npc
      && CauseExcode(t.cop0.cause) == IBE.Code() && !CauseBranchDelay(t.cop0.cause)
      && t.regs.r == s.regs.r
  {
    ExceptionEntry(s, IBE, s.regs.npc, false, false, 0);
    CauseFields(s.cop0.cause, IBE, false, false, 0);
  }

  /**
   * `FlushPipeline` restarts fetching at `npc`: from an aligned, mapped
   * address `pc` becomes `npc`, `npc` moves one word on and the word there is
   * prefetched, with COP0 untouched; a misaligned `npc` raises AdEL and one
   * the bus does not map raises IBE, both reporting `npc` as EPC.
   */
  lemma FlushPipelineFetches(s: CpuState)
    ensures var t := FlushPipeline(s);
      && (FetchSucceeds(s) ==>
            && t.regs.pc == s.regs.npc && t.regs.npc == WrappingAdd(s.regs.npc, 4)
            && Read(s.bus, Word, s.regs.npc) == Some(t.latches.nextInstruction)
            && t.cop0 == s.cop0 && t.bus == s.bus)
      && (s.regs.npc & 3 != 0 ==>
            && t.cop0.badVaddr == s.regs.npc && t.cop0.epc == s.regs.npc
            && CauseExcode(t.cop0.cause) == AdEL.Code())
      && (s.regs.npc & 3 == 0 && !Mapped(s.bus, s.regs.npc) ==>
            && t.cop0.badVaddr == s.cop0.badVaddr && t.cop0.epc == s.regs.npc
            && CauseExcode(t.cop0.cause) == IBE.Code())
  {
    var u := Flushed(s);
    if s.regs.npc & 3 != 0 {
      FetchMisaligned(u);
    } else if !Mapped(s.bus, s.regs.npc) {
      FetchBusError(u);
    }
  }

  /** `SetPC(newPc)` is `FlushPipeline` from `newPc`: the same three outcomes. */
  lemma SetPCFetches(s: CpuState, newPc: bv32)
    ensures var t := SetPC(s, newPc);
      && (newPc & 3 == 0 && Mapped(s.bus, newPc) ==>
            && t.regs.pc == newPc && t.regs.npc == WrappingAdd(newPc, 4)
            && Read(s.bus, Word, newPc) == Some(t.latches.nextInstruction)
            && t.cop0 == s.cop0)
      && (newPc & 3 != 0 ==>
            && t.cop0.badVaddr == newPc && t.cop0.epc == newPc
            && CauseExcode(t.cop0.cause) == AdEL.Code())
      && (newPc & 3 == 0 && !Mapped(s.bus, newPc) ==>
            && t.cop0.epc == newPc && CauseExcode(t.cop0.cause) == IBE.Code())
  {
    FlushPipelineFetches(s.(regs := s.regs.(npc := newPc)));
  }

  /** The EPC an exception raised by the current instruction records. */
  function FaultingPc(s: CpuState): bv32 {
    if s.latches.currentInBranchDelaySlot then WrappingSub(s.latches.currentInstructionPc, 4) else s.latches.currentInstructionPc
  }

  /**
   * An exception raised by the current instruction: its code, EPC, the
   * delay-slot flag and the instruction's coprocessor number are recorded.
   */
  lemma RaisedByCurrentInstruction(s: CpuState, excode: Exception)
    ensures var t := RaiseException(s, excode);
      && CauseExcode(t.cop0.cause) == excode.Code()
      && CauseBranchDelay(t.cop0.cause) == s.latches.currentInBranchDelaySlot
      && CauseCopNumber(t.cop0.cause) == CopN(s.latches.currentInstruction)
      && t.cop0.epc == FaultingPc(s)
      && t.cop0.badVaddr == s.cop0.badVaddr
      && t.regs.r == s.regs.r && t.bus == s.bus
  {
    ExceptionEntry(s, excode, s.latches.currentInstructionPc, s.latches.currentInBranchDelaySlot, s.latches.currentWasBranchTaken, CopN(s.latches.currentInstruction));
    CauseFields(s.cop0.cause, excode, s.latches.currentInBranchDelaySlot, s.latches.currentWasBranchTaken, CopN(s.latches.currentInstruction));
  }

  /** A data read from a misaligned address raises AdEL and records the address in BadVaddr. */
  lemma ReadMemoryMisaligned(s: CpuState, size: AccessSize, addr: bv32)
    requires !Aligned(size, addr)
    ensures size != Byte
    ensures var (t, v) := ReadMemory(s, size, addr);
      && v.None? && t.cop0.badVaddr == addr && CauseExcode(t.cop0.cause) == AdEL.Code()
      && t.cop0.epc == FaultingPc(s) && t.regs.r == s.regs.r
  {
    var u := s.(cop0 := s.cop0.(badVaddr := addr));
    RaisedByCurrentInstruction(u, AdEL);
    assert ReadMemory(s, size, addr) == (RaiseException(u, AdEL), None);
  }

  /** A data read the bus cannot serve raises DBE and leaves BadVaddr alone. */
  lemma ReadMemoryBusError(s: CpuState, size: AccessSize, addr: bv32)
    requires Aligned(size, addr) && !Mapped(s.bus, addr)
    ensures var (t, v) := ReadMemory(s, size, addr);
      && v.None? && t.cop0.badVaddr == s.cop0.badVaddr && CauseExcode(t.cop0.cause) == DBE.Code()
      && t.cop0.epc == FaultingPc(s) && t.regs.r == s.regs.r
  {
    RaisedByCurrentInstruction(s, DBE);
  }

  /** An aligned read of mapped memory returns the bus's lane and changes nothing. */
  lemma ReadMemorySucceeds(s: CpuState, size: AccessSize, addr: bv32)
    requires Aligned(size, addr) && Mapped(s.bus, addr)
    ensures ReadMemory(s, size, addr) == (s, Read(s.bus, size, addr))
    ensures Read(s.bus, size, addr).Some?
  {
  }

  /** A data write to a misaligned address raises AdES and records the address in BadVaddr. */
  lemma WriteMemoryMisaligned(s: CpuState, size: AccessSize, addr: bv32, value: bv32)
    requires !Aligned(size, addr)
    ensures size != Byte
    ensures var (t, ok) := WriteMemory(s, size, addr, value);
      && !ok && t.cop0.badVaddr == addr && CauseExcode(t.cop0.cause) == AdES.Code()
      && t.cop0.epc == FaultingPc(s) && t.bus == s.bus
  {
    var u := s.(cop0 := s.cop0.(badVaddr := addr));
    RaisedByCurrentInstruction(u, AdES);
    assert WriteMemory(s, size, addr, value) == (RaiseException(u, AdES), false);
  }

  /** A data write the bus cannot serve raises DBE, leaves BadVaddr and memory alone. */
  lemma WriteMemoryBusError(s: CpuState, size: AccessSize, addr: bv32, value: bv32)
    requires Aligned(size, addr) && !Mapped(s.bus, addr)
    ensures var (t, ok) := WriteMemory(s, size, addr, value);
      && !ok && t.cop0.badVaddr == s.cop0.badVaddr && CauseExcode(t.cop0.cause) == DBE.Code()
      && t.cop0.epc == FaultingPc(s) && t.bus == s.bus
  {
    RaisedByCurrentInstruction(s, DBE);
  }

  /** An aligned write to mapped memory changes the bus and nothing else. */
  lemma WriteMemorySucceeds(s: CpuState, size: AccessSize, addr: bv32, value: bv32)
    requires Aligned(size, addr) && Mapped(s.bus, addr)
    ensures Write(s.bus, size, addr, value).Some?
    ensures WriteMemory(s, size, addr, value) == (s.(bus := Write(s.bus, size, addr, value).value), true)
  {
  }

  // ===== COP0 register bank =====

  /** The registers `ReadCop0Reg` knows; every other number reads as "no such register". */
  lemma Cop0ImplementedRegisters(c: Cop0Registers, reg: Reg)
    ensures ReadCop0Reg(c, reg).Some? <==> reg in {3, 5, 6, 7, 8, 9, 11, 12, 13, 14, 15}
  {
  }

  /**
   * Reading back a COP0 write: the breakpoint registers return the value,
   * DCIC, SR and CAUSE return it merged under their write masks, and every
   * other register (JUMPDEST, BadVaddr, EPC, PRID, unknown) is unaffected.
   */
  lemma Cop0ReadAfterWrite(c: Cop0Registers, reg: Reg, value: bv32)
    ensures ReadCop0Reg(WriteCop0Reg(c, reg, value), reg)
            == if reg in {COP0_BPC, COP0_BPCM, COP0_BDA, COP0_BDAM} then Some(value)
               else if reg == COP0_DCIC then Some(MaskedWrite(c.dcic, value, DCIC_WRITE_MASK))
               else if reg == COP0_SR then Some(MaskedWrite(c.sr, value, SR_WRITE_MASK))
               else if reg == COP0_CAUSE then Some(MaskedWrite(c.cause, value, CAUSE_WRITE_MASK))
               else ReadCop0Reg(c, reg)
  {
  }

  /**
   * A COP0 write changes at most the register it names: JUMPDEST, BadVaddr,
   * EPC and PRID are never written by software.
   */
  lemma Cop0WriteIsolated(c: Cop0Registers, reg: Reg, value: bv32)
    ensures var d := WriteCop0Reg(c, reg, value);
      && d.tar == c.tar && d.badVaddr == c.badVaddr && d.epc == c.epc && d.prid == c.prid
      && (reg != COP0_BPC ==> d.bpc == c.bpc) && (reg != COP0_BPCM ==> d.bpcm == c.bpcm)
      && (reg != COP0_BDA ==> d.bda == c.bda) && (reg != COP0_BDAM ==> d.bdam == c.bdam)
      && (reg != COP0_DCIC ==> d.dcic == c.dcic) && (reg != COP0_SR ==> d.sr == c.sr)
      && (reg != COP0_CAUSE ==> d.cause == c.cause)
  {
  }

  /** The COP0 write masks: the read-only bits of SR, CAUSE (all but the two software interrupts) and DCIC survive any write. */
  lemma Cop0ReadOnlyBits(c: Cop0Registers, value: bv32)
    ensures WriteCop0Reg(c, COP0_SR, value).sr & !SR_WRITE_MASK == c.sr & !SR_WRITE_MASK
    ensures WriteCop0Reg(c, COP0_CAUSE, value).cause & !0x300 == c.cause & !0x300
    ensures WriteCop0Reg(c, COP0_CAUSE, value).cause & 0x300 == value & 0x300
    ensures WriteCop0Reg(c, COP0_DCIC, value).dcic & !DCIC_WRITE_MASK == c.dcic & !DCIC_WRITE_MASK
  {
    MaskedWriteBits(c.sr, value, SR_WRITE_MASK);
    MaskedWriteBits(c.cause, value, CAUSE_WRITE_MASK);
    MaskedWriteBits(c.dcic, value, DCIC_WRITE_MASK);
  }

  // ===== external interrupt lines =====

  /**
   * Raising line `bit` sets exactly CAUSE.Ip bit `bit` and keeps every other
   * CAUSE bit; a line number past the 8-bit Ip field changes nothing.
   */
  lemma SetExternalInterruptLine(c: Cop0Registers, bit: bv32)
    requires bit < 32
    ensures SetExternalInterrupt(c, bit).cause & !0xFF00 == c.cause & !0xFF00
    ensures bit < 8 ==> (SetExternalInterrupt(c, bit).cause >> 8) & 0xFF == ((c.cause >> 8) & 0xFF) | (1 << bit)
    ensures bit >= 8 ==> SetExternalInterrupt(c, bit) == c
  {
    if bit < 8 {} else {}
  }

  /** Lowering line `bit` clears exactly CAUSE.Ip bit `bit`. */
  lemma ClearExternalInterruptLine(c: Cop0Registers, bit: bv32)
    requires bit < 32
    ensures ClearExternalInterrupt(c, bit).cause & !0xFF00 == c.cause & !0xFF00
    ensures bit < 8 ==> (ClearExternalInterrupt(c, bit).cause >> 8) & 0xFF == ((c.cause >> 8) & 0xFF) & !(1 << bit)
    ensures bit >= 8 ==> ClearExternalInterrupt(c, bit) == c
  {
    if bit < 8 {} else {}
  }

  /** Lowering a line forgets whether it had been raised, and raising it forgets a lowering. */
  lemma ClearUndoesSet(c: Cop0Registers, bit: bv32)
    requires bit < 32
    ensures ClearExternalInterrupt(SetExternalInterrupt(c, bit), bit).cause == ClearExternalInterrupt(c, bit).cause
    ensures SetExternalInterrupt(ClearExternalInterrupt(c, bit), bit).cause == SetExternalInterrupt(c, bit).cause
  {
  }

  /** A raised line that SR.Im enables makes an interrupt due while SR.IEc is set. */
  lemma RaisedLineIsPending(c: Cop0Registers, bit: bv32)
    requires bit < 8 && InterruptsEnabled(c.sr) && (c.sr >> (bit + 8)) & 1 == 1
    ensures InterruptPending(SetExternalInterrupt(c, bit))
  {
  }

  // ===== unaligned word access (lwl/lwr, swl/swr) =====

  /**
   * The idiom `lwr rt, addr; lwl rt, addr+3` assembles the unaligned word at
   * `addr` from the two aligned words `w0` (holding `addr`) and `w1` (holding
   * `addr+3`), whatever `rt` held before: little-endian, the bytes of `w0`
   * from `addr` up, then the low bytes of `w1`.
   */
  lemma UnalignedLoadPair(existing: bv32, w0: bv32, w1: bv32, addr: bv32)
    requires addr & 3 != 0
    ensures MergeLeft(MergeRight(existing, w0, UnalignedShift(addr)), w1, UnalignedShift(WrappingAdd(addr, 3)))
            == (w0 >> UnalignedShift(addr)) | (w1 << (32 - UnalignedShift(addr)))
  {
  }

  /**
   * `swr rt, addr; swl rt, addr+3` stores a word at an unaligned address:
   * loading it back with lwr/lwl yields the stored value, and the bytes of
   * the two aligned words outside `addr..addr+3` are kept.
   */
  lemma UnalignedStorePair(existing: bv32, w0: bv32, w1: bv32, value: bv32, addr: bv32)
    requires addr & 3 != 0
    ensures var sh, sh3 := UnalignedShift(addr), UnalignedShift(WrappingAdd(addr, 3));
      var m0, m1 := StoreMergeRight(w0, value, sh), StoreMergeLeft(w1, value, sh3);
      && MergeLeft(MergeRight(existing, m0, sh), m1, sh3) == value
      && m0 & (0xFFFF_FFFF >> (32 - sh)) == w0 & (0xFFFF_FFFF >> (32 - sh))
      && m1 & (0xFFFF_FFFF << sh) == w1 & (0xFFFF_FFFF << sh)
  {
  }

  /** At an aligned address the pair stores and loads the whole word. */
  lemma AlignedStorePair(existing: bv32, w: bv32, value: bv32, addr: bv32)
    requires addr & 3 == 0
    ensures var sh, sh3 := UnalignedShift(addr), UnalignedShift(WrappingAdd(addr, 3));
      var m := StoreMergeLeft(StoreMergeRight(w, value, sh), value, sh3);
      m == value && MergeLeft(MergeRight(existing, m, sh), m, sh3) == value
  {
  }
}

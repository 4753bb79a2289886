/**
 * The CPU core as functions on a value holding all of its state. Every
 * function here mirrors one member of `CPU::Core` and is what the
 * corresponding method of the imperative `CpuCore.Core` class is proved
 * against; the properties of the core are stated about these functions.
 */
module CpuSpec {
  import opened Wrappers
  import opened Bits
  import opened Bus
  import opened CpuTypes

  /**
   * A load-delay register slot: a register index, or 32 (`Reg::count`) for
   * "none". A load into register 0 is dropped, so 0 never occupies a slot.
   */
  type LoadDelaySlot = x: nat | 0 < x <= 32 witness 32

  const NO_REG: LoadDelaySlot := 32

  /** The instruction latches: the prefetched word, the word executing, and the delay-slot flags. */
  datatype Latches = Latches(
    nextInstruction: bv32,
    currentInstruction: bv32,
    currentInstructionPc: bv32,
    currentInBranchDelaySlot: bool,
    currentWasBranchTaken: bool,
    nextIsBranchDelaySlot: bool,
    branchWasTaken: bool)

  /**
   * The two load-delay slots: the load whose delay slot is executing (`reg`,
   * with the value instructions still see) and the load issued by the
   * current instruction (`nextReg`), promoted at the end of the step.
   */
  datatype LoadDelay = LoadDelay(reg: LoadDelaySlot, oldValue: bv32, nextReg: LoadDelaySlot, nextOldValue: bv32)

  const NO_LOAD_DELAY: LoadDelay := LoadDelay(NO_REG, 0, NO_REG, 0)

  datatype CpuState = CpuState(
    regs: Registers,
    cop0: Cop0Registers,
    latches: Latches,
    loadDelay: LoadDelay,
    cacheControl: bv32,
    bus: SystemMemory,
    gte: GteRegisters)

  /** The invariant between two steps: no load waits to be promoted. */
  predicate Valid(s: CpuState) {
    s.loadDelay.nextReg == NO_REG
  }

  // ===== register file (cpu_core.cpp ReadReg / WriteReg / WriteRegDelayed) =====

  /** The value an instruction sees: the pre-load value while a load into `rs` is in its delay slot. */
  function ReadReg(s: CpuState, rs: Reg): (v: bv32)
    ensures rs == 0 ==> v == 0
  {
    if rs == s.loadDelay.reg then s.loadDelay.oldValue else s.regs.r[rs]
  }

  function WriteReg(s: CpuState, rd: Reg, value: bv32): (t: CpuState)
    ensures t.regs.r[rd] == (if rd == 0 then s.regs.r[rd] else value)
    ensures forall k: Reg :: k != rd ==> t.regs.r[k] == s.regs.r[k]
    ensures t == s.(regs := s.regs.(r := t.regs.r))
  {
    if rd == 0 then s else s.(regs := s.regs.(r := s.regs.r[rd := value]))
  }

  /**
   * A load's write-back: the new value is committed at once, and the value an
   * instruction saw before is kept as the shadow of the next load delay.
   */
  function WriteRegDelayed(s: CpuState, rd: Reg, value: bv32): (t: CpuState)
    requires s.loadDelay.nextReg == NO_REG
    ensures rd == 0 ==> t == s
    ensures rd != 0 ==> t.loadDelay.nextReg == rd && t.loadDelay.nextOldValue == ReadReg(s, rd)
    ensures rd != 0 ==> t.regs.r[rd] == value
    ensures forall k: Reg :: k != rd ==> t.regs.r[k] == s.regs.r[k]
    ensures t == s.(regs := s.regs.(r := t.regs.r),
                    loadDelay := s.loadDelay.(nextReg := t.loadDelay.nextReg, nextOldValue := t.loadDelay.nextOldValue))
  {
    if rd == 0 then s
    else s.(loadDelay := s.loadDelay.(nextReg := rd, nextOldValue := ReadReg(s, rd)),
            regs := s.regs.(r := s.regs.r[rd := value]))
  }

  /** The four lines closing a step: the pending load becomes the active one. */
  function PromoteLoadDelay(s: CpuState): (t: CpuState)
    ensures t.loadDelay.reg == s.loadDelay.nextReg && t.loadDelay.oldValue == s.loadDelay.nextOldValue
    ensures t.loadDelay.nextReg == NO_REG
    ensures t.regs == s.regs && t.cop0 == s.cop0 && t.latches == s.latches && t.bus == s.bus
    ensures t.cacheControl == s.cacheControl && t.gte == s.gte
  {
    s.(loadDelay := LoadDelay(s.loadDelay.nextReg, s.loadDelay.nextOldValue, NO_REG, 0))
  }

  // ===== pipeline, fetch and exceptions =====

  function FlushLoadDelay(s: CpuState): (t: CpuState)
    ensures t.loadDelay.reg == NO_REG && t.loadDelay.nextReg == NO_REG
  {
    s.(loadDelay := NO_LOAD_DELAY)
  }

  /** Fetching at `npc` succeeds: the address is word-aligned and the bus maps it. */
  predicate FetchSucceeds(s: CpuState) {
    s.regs.npc & 3 == 0 && Mapped(s.bus, s.regs.npc)
  }

  /** `GetExceptionVector`: base 0xBFC00100 with SR.BEV set, 0x80000000 otherwise, OR 0x80. */
  function GetExceptionVector(sr: bv32): (v: bv32)
    ensures v == if BootExceptionVectors(sr) then BOOT_EXCEPTION_VECTOR else RAM_EXCEPTION_VECTOR
  {
    var base: bv32 := if BootExceptionVectors(sr) then 0xBFC0_0100 else 0x8000_0000;
    base | 0x80
  }

  /** CAUSE after exception entry: Excode, CE, BT and BD are replaced, Ip and the rest kept. */
  function CauseOnException(cause: bv32, excode: Exception, bd: bool, bt: bool, ce: bv32): bv32 {
    var fields: bv32 := (excode.Code() << 2) | ((ce & 3) << 28)
                        | (if bt then 0x4000_0000 else 0) | (if bd then 0x8000_0000 else 0);
    MaskedWrite(cause, fields, CAUSE_EXCEPTION_FIELDS)
  }

  /** `sr.mode_bits <<= 2`: current mode becomes previous, previous becomes old, the 6-bit field truncates. */
  function PushModeStack(sr: bv32): bv32 {
    MaskedWrite(sr, (sr & MODE_BITS_MASK) << 2, MODE_BITS_MASK)
  }

  /** rfe: `mode_bits = (mode_bits & 0b110000) | (mode_bits >> 2)`. */
  function PopModeStack(sr: bv32): bv32 {
    var mode := sr & MODE_BITS_MASK;
    MaskedWrite(sr, (mode & 0x30) | (mode >> 2), MODE_BITS_MASK)
  }

  /** The successful path of `FetchInstruction`: the word at `npc` is prefetched and `pc` advances to `npc`. */
  function Prefetch(s: CpuState): (t: CpuState)
    requires FetchSucceeds(s)
    ensures Read(s.bus, Word, s.regs.npc) == Some(t.latches.nextInstruction)
    ensures t == s.(latches := s.latches.(nextInstruction := t.latches.nextInstruction), regs := s.regs.(pc := s.regs.npc, npc := WrappingAdd(s.regs.npc, 4)))
  {
    s.(latches := s.latches.(nextInstruction := Read(s.bus, Word, s.regs.npc).value),
       regs := s.regs.(pc := s.regs.npc, npc := WrappingAdd(s.regs.npc, 4)))
  }

  /**
   * `FetchInstruction`: prefetch the word at `npc`. A misaligned `npc` raises
   * AdEL with BadVaddr = npc; a bus error raises IBE and leaves BadVaddr alone.
   * Both report `npc` as EPC, outside any delay slot.
   */
  function FetchInstruction(s: CpuState): (r: (CpuState, bool))
    ensures r.1 <==> FetchSucceeds(s)
    ensures r.1 ==> r.0 == Prefetch(s)
    ensures !r.1 ==> r.0.loadDelay.nextReg == NO_REG && r.0.loadDelay.reg == NO_REG && r.0.regs.r == s.regs.r
    ensures !r.1 ==> !r.0.latches.branchWasTaken && !r.0.latches.nextIsBranchDelaySlot
  {
    if s.regs.npc & 3 != 0 then
      var t := s.(cop0 := s.cop0.(badVaddr := s.regs.npc));
      (RaiseExceptionAt(t, AdEL, s.regs.npc, false, false, 0), false)
    else if !Mapped(s.bus, s.regs.npc) then
      (RaiseExceptionAt(s, IBE, s.regs.npc, false, false, 0), false)
    else
      (Prefetch(s), true)
  }

  /** What `FlushPipeline` does before it fetches: both load delays and the delay-slot flags are dropped. */
  function Flushed(s: CpuState): (t: CpuState)
    ensures t.loadDelay.nextReg == NO_REG && t.loadDelay.reg == NO_REG
    ensures !t.latches.branchWasTaken && !t.latches.nextIsBranchDelaySlot
    ensures t.regs == s.regs && t.cop0 == s.cop0 && t.bus == s.bus
  {
    FlushLoadDelay(s).(latches := s.latches.(branchWasTaken := false, nextIsBranchDelaySlot := false))
  }

  /** `FlushPipeline`: drop both load delays and the delay-slot flags, then prefetch. */
  function FlushPipeline(s: CpuState): (t: CpuState)
    ensures t.loadDelay.nextReg == NO_REG && t.loadDelay.reg == NO_REG
    ensures !t.latches.branchWasTaken && !t.latches.nextIsBranchDelaySlot
    ensures t.regs.r == s.regs.r
  {
    FetchInstruction(Flushed(s)).0
  }

  /** The COP0 registers after exception entry, before the pipeline is flushed. */
  function EnterException(s: CpuState, excode: Exception, epc: bv32, bd: bool, bt: bool, ce: bv32): (c: Cop0Registers)
    ensures c == s.cop0.(epc := c.epc, cause := c.cause, tar := c.tar, sr := c.sr)
  {
    s.cop0.(epc := if bd then WrappingSub(epc, 4) else epc,
            cause := CauseOnException(s.cop0.cause, excode, bd, bt, ce),
            tar := if bd then s.regs.pc else s.cop0.tar,
            sr := PushModeStack(s.cop0.sr))
  }

  /**
   * `RaiseException(excode, EPC, BD, BT, CE)`: record the cause, the return
   * address (one instruction back inside a delay slot, where TAR also takes
   * `pc`), push the mode stack, and restart fetching at the exception vector.
   * The restart is `FlushPipeline`; its fetch cannot fail, because the vector
   * is word-aligned and mapped, so it is written here as the prefetch it
   * always is (`CpuProperties.ExceptionFlushesPipeline` states the two agree).
   */
  function RaiseExceptionAt(s: CpuState, excode: Exception, epc: bv32, bd: bool, bt: bool, ce: bv32): (t: CpuState)
    ensures t.regs.r == s.regs.r && t.bus == s.bus && t.gte == s.gte
    ensures t.loadDelay.nextReg == NO_REG && t.loadDelay.reg == NO_REG
    ensures !t.latches.branchWasTaken && !t.latches.nextIsBranchDelaySlot
  {
    var c := EnterException(s, excode, epc, bd, bt, ce);
    var u := Flushed(s.(cop0 := c, regs := s.regs.(npc := GetExceptionVector(c.sr))));
    Prefetch(u)
  }

  /** `RaiseException(excode)`: an exception raised by the instruction being executed. */
  function RaiseException(s: CpuState, excode: Exception): (t: CpuState)
    ensures t.regs.r == s.regs.r && t.bus == s.bus && t.gte == s.gte
    ensures t.loadDelay.nextReg == NO_REG
  {
    RaiseExceptionAt(s, excode, s.latches.currentInstructionPc, s.latches.currentInBranchDelaySlot,
                     s.latches.currentWasBranchTaken, CopN(s.latches.currentInstruction))
  }

  /** `SetPC`: jump to `newPc` and refill the pipeline from there. */
  function SetPC(s: CpuState, newPc: bv32): (t: CpuState)
    ensures t.loadDelay.nextReg == NO_REG && t.loadDelay.reg == NO_REG
    ensures !t.latches.branchWasTaken && !t.latches.nextIsBranchDelaySlot
    ensures t.regs.r == s.regs.r
  {
    FlushPipeline(s.(regs := s.regs.(npc := newPc)))
  }

  /** The COP0 registers `Reset` clears: all but PRID and DCIC. */
  function ResetCop0(c: Cop0Registers): (r: Cop0Registers)
    ensures r == Cop0Registers(0, 0, 0, 0, 0, 0, 0, c.prid, 0, 0, c.dcic)
  {
    c.(bpc := 0, bda := 0, tar := 0, badVaddr := 0, bdam := 0, bpcm := 0, epc := 0, sr := 0, cause := 0)
  }

  /** `Reset`: zero the register file and the resettable COP0 registers, reset the GTE, start at the reset vector. */
  function Reset(s: CpuState): (t: CpuState)
    ensures Valid(t)
  {
    SetPC(s.(regs := ZeroRegisters(), cop0 := ResetCop0(s.cop0), gte := ZeroGte()), RESET_VECTOR)
  }

  // ===== interrupts =====

  /** The CAUSE.Ip bit for external line `bit`: the `u8` cast drops the line for `bit` 8 and up. */
  function InterruptLine(bit: bv32): bv32
    requires bit < 32
  {
    (((1 as bv32) << bit) & 0xFF) << 8
  }

  /** `SetExternalInterrupt`: sets CAUSE.Ip bit `bit`. */
  function SetExternalInterrupt(c: Cop0Registers, bit: bv32): (t: Cop0Registers)
    requires bit < 32
    ensures t == c.(cause := t.cause)
  {
    c.(cause := c.cause | InterruptLine(bit))
  }

  /** `ClearExternalInterrupt`: clears CAUSE.Ip bit `bit`. */
  function ClearExternalInterrupt(c: Cop0Registers, bit: bv32): (t: Cop0Registers)
    requires bit < 32
    ensures t == c.(cause := t.cause)
  {
    c.(cause := c.cause & !InterruptLine(bit))
  }

  /** An interrupt is due: SR.IEc is set and a pending CAUSE.Ip bit is enabled in SR.Im. */
  predicate InterruptPending(c: Cop0Registers) {
    InterruptsEnabled(c.sr) && (c.cause & c.sr) & 0xFF00 != 0
  }

  /**
   * `DispatchInterrupts`: raise INT unless the instruction about to execute
   * goes to the GTE, in which case the interrupt waits one instruction.
   */
  function DispatchInterrupts(s: CpuState): (r: (CpuState, bool))
    ensures r.1 <==> !IsCop2Instruction(s.latches.nextInstruction) && InterruptPending(s.cop0)
    ensures r.1 ==> r.0 == RaiseException(s, INT)
    ensures !r.1 ==> r.0 == s
  {
    if IsCop2Instruction(s.latches.nextInstruction) then (s, false)
    else if !InterruptPending(s.cop0) then (s, false)
    else (RaiseException(s, INT), true)
  }

  // ===== COP0 register bank =====

  /** `ReadCop0Reg`: the register's value, or None for a register the core does not implement. */
  function ReadCop0Reg(c: Cop0Registers, reg: Reg): Option<bv32> {
    if reg == COP0_BPC then Some(c.bpc)
    else if reg == COP0_BPCM then Some(c.bpcm)
    else if reg == COP0_BDA then Some(c.bda)
    else if reg == COP0_BDAM then Some(c.bdam)
    else if reg == COP0_DCIC then Some(c.dcic)
    else if reg == COP0_JUMPDEST then Some(c.tar)
    else if reg == COP0_BADVADDR then Some(c.badVaddr)
    else if reg == COP0_SR then Some(c.sr)
    else if reg == COP0_CAUSE then Some(c.cause)
    else if reg == COP0_EPC then Some(c.epc)
    else if reg == COP0_PRID then Some(c.prid)
    else None
  }

  /**
   * `WriteCop0Reg`: breakpoint registers take the value, DCIC/SR/CAUSE only
   * the bits of their write masks; JUMPDEST and every other register ignore
   * the write. Written register by register: each takes the write exactly
   * when it is the one `reg` names.
   */
  function WriteCop0Reg(c: Cop0Registers, reg: Reg, value: bv32): Cop0Registers {
    c.(bpc := if reg == COP0_BPC then value else c.bpc,
       bpcm := if reg == COP0_BPCM then value else c.bpcm,
       bda := if reg == COP0_BDA then value else c.bda,
       bdam := if reg == COP0_BDAM then value else c.bdam,
       dcic := if reg == COP0_DCIC then MaskedWrite(c.dcic, value, DCIC_WRITE_MASK) else c.dcic,
       sr := if reg == COP0_SR then MaskedWrite(c.sr, value, SR_WRITE_MASK) else c.sr,
       cause := if reg == COP0_CAUSE then MaskedWrite(c.cause, value, CAUSE_WRITE_MASK) else c.cause)
  }

  // ===== memory access gateway =====

  /** Natural alignment: half-words on even addresses, words on multiples of four. */
  predicate Aligned(size: AccessSize, addr: bv32) {
    match size
    case Byte => true
    case HalfWord => addr & 1 == 0
    case Word => addr & 3 == 0
  }

  /** `DoAlignmentCheck`: a misaligned access records BadVaddr and raises AdEL (read) or AdES (write). */
  function DoAlignmentCheck(s: CpuState, isWrite: bool, size: AccessSize, addr: bv32): (r: (CpuState, bool))
    ensures r.1 <==> Aligned(size, addr)
    ensures r.1 ==> r.0 == s
    ensures !r.1 ==> r.0 == RaiseException(s.(cop0 := s.cop0.(badVaddr := addr)), if isWrite then AdES else AdEL)
  {
    if Aligned(size, addr) then (s, true)
    else (RaiseException(s.(cop0 := s.cop0.(badVaddr := addr)), if isWrite then AdES else AdEL), false)
  }

  /**
   * `ReadMemoryByte/HalfWord/Word`: the zero-extended lane, or None after
   * raising AdEL (misaligned) or DBE (bus error). The byte form has no
   * alignment check.
   */
  function ReadMemory(s: CpuState, size: AccessSize, addr: bv32): (r: (CpuState, Option<bv32>))
    ensures r.1.Some? ==> r.0 == s
    ensures r.1.None? ==> r.0.loadDelay.nextReg == NO_REG
    ensures r.0.regs.r == s.regs.r && r.0.bus == s.bus && r.0.gte == s.gte
  {
    var (t, aligned) := DoAlignmentCheck(s, false, size, addr);
    if !aligned then (t, None)
    else match Read(s.bus, size, addr)
      case None => (RaiseException(s, DBE), None)
      case Some(v) => (s, Some(v))
  }

  /** `WriteMemoryByte/HalfWord/Word`: store the lane, or raise AdES (misaligned) or DBE (bus error). */
  function WriteMemory(s: CpuState, size: AccessSize, addr: bv32, value: bv32): (r: (CpuState, bool))
    ensures r.0.regs.r == s.regs.r && r.0.gte == s.gte
    ensures r.1 ==> r.0 == s.(bus := r.0.bus)
  {
    var (t, aligned) := DoAlignmentCheck(s, true, size, addr);
    if !aligned then (t, false)
    else match Write(s.bus, size, addr, value)
      case None => (RaiseException(s, DBE), false)
      case Some(m) => (s.(bus := m), true)
  }

  /** `SafeWriteMemory*`: no alignment check and no exception; only the memory can change. */
  function SafeWriteMemory(s: CpuState, size: AccessSize, addr: bv32, value: bv32): (r: (CpuState, bool))
    ensures r.1 <==> Mapped(s.bus, addr)
    ensures r.1 ==> Write(s.bus, size, addr, value) == Some(r.0.bus) && r.0 == s.(bus := r.0.bus)
    ensures !r.1 ==> r.0 == s
  {
    match Write(s.bus, size, addr, value)
    case None => (s, false)
    case Some(m) => (s.(bus := m), true)
  }

  // ===== arithmetic helpers =====

  /** `AddOverflow`: the result's sign differs from the signs of both operands. */
  predicate AddOverflow(oldValue: bv32, addValue: bv32, newValue: bv32) {
    ((newValue ^ oldValue) & (newValue ^ addValue)) & 0x8000_0000 != 0
  }

  /** `SubOverflow`: the operands' signs differ and the result's sign differs from the minuend's. */
  predicate SubOverflow(oldValue: bv32, subValue: bv32, newValue: bv32) {
    ((newValue ^ oldValue) & (oldValue ^ subValue)) & 0x8000_0000 != 0
  }

  /** The pair of multiply/divide result registers. */
  datatype HiLo = HiLo(hi: bv32, lo: bv32)

  /**
   * `div`: a zero divisor leaves the dividend in hi and 0xFFFFFFFF (for a
   * dividend >= 0) or 1 in lo; 0x80000000 / -1, whose quotient 2^31 is not
   * an `s32`, gives lo = 0x80000000 and hi = 0; any other pair gets C++'s
   * truncating quotient in lo and remainder in hi.
   */
  function SignedDivide(num: bv32, denom: bv32): HiLo {
    var n, d := Signed(num), Signed(denom);
    if d == 0 then HiLo(num, if n >= 0 then 0xFFFF_FFFF else 1)
    else if n == -0x8000_0000 && d == -1 then HiLo(0, 0x8000_0000)
    else HiLo(ToWord(TruncatingRemainder(n, d)), ToWord(TruncatingQuotient(n, d)))
  }

  /**
   * `divu`: quotient in lo, remainder in hi; a zero divisor gives
   * lo = 0xFFFFFFFF, since `num >= 0` always holds for a `u32`.
   */
  function UnsignedDivide(num: bv32, denom: bv32): HiLo {
    var n, d := num as int, denom as int;
    if d == 0 then HiLo(num, 0xFFFF_FFFF) else HiLo(ToWord(n % d), ToWord(n / d))
  }

  /** `Truncate32(result >> 32)` and `Truncate32(result)` of a 64-bit product. */
  function SplitProduct(p: int): HiLo {
    HiLo(ToWord(p / 0x1_0000_0000), ToWord(p))
  }

  /** `mult`: the product of the operands read as `s64`, split into hi and lo. */
  function SignedMultiply(lhs: bv32, rhs: bv32): HiLo {
    SplitProduct(Signed(lhs) * Signed(rhs))
  }

  /** `multu`: the product of the operands read as `u64`, split into hi and lo. */
  function UnsignedMultiply(lhs: bv32, rhs: bv32): HiLo {
    SplitProduct(lhs as int * rhs as int)
  }

  function ShiftAmount(v: bv32): (n: nat)
    ensures n < 32
  {
    (v & 0x1F) as nat
  }

  /**
   * Comparison of two words as signed 32-bit integers, computed by flipping
   * both sign bits and comparing unsigned (`CpuProperties.SignedLessBySign`
   * shows it orders by sign first).
   */
  predicate SignedLess(a: bv32, b: bv32) {
    (a ^ 0x8000_0000) < (b ^ 0x8000_0000)
  }

  /** `BoolToUInt32`. */
  function BoolToWord(b: bool): bv32 {
    if b then 1 else 0
  }

  /** Address of a load or store: rs plus the sign-extended immediate. */
  function EffectiveAddress(s: CpuState): bv32 {
    WrappingAdd(ReadReg(s, Rs(s.latches.currentInstruction)), ImmSext(s.latches.currentInstruction))
  }

  /** Target of a conditional branch: the delay slot's address (`pc`) plus the offset in words. */
  function BranchTarget(s: CpuState): bv32 {
    WrappingAdd(s.regs.pc, ImmSext(s.latches.currentInstruction) << 2)
  }

  /** Target of j/jal: the delay slot's 256 MiB region with the 26-bit word index. */
  function JumpTarget(s: CpuState): bv32 {
    (s.regs.pc & 0xF000_0000) | (Target(s.latches.currentInstruction) << 2)
  }

  /** `Branch`: redirect the next fetch and note that a branch was taken. */
  function Branch(s: CpuState, target: bv32): (t: CpuState)
    ensures t.regs.npc == target && t.latches.branchWasTaken
  {
    s.(regs := s.regs.(npc := target), latches := s.latches.(branchWasTaken := true))
  }

  function SetHiLo(s: CpuState, hi: bv32, lo: bv32): CpuState {
    s.(regs := s.regs.(hi := hi, lo := lo))
  }

  /** Writes the link register directly, as jal and the linking REGIMM branches do. */
  function Link(s: CpuState): (t: CpuState)
  {
    s.(regs := s.regs.(r := s.regs.r[RA := s.regs.npc]))
  }

  // ===== instruction execution =====

  /** The instruction would reach a `Panic("Missing implementation")` in the COP0 dispatcher. */
  predicate Cop0Unimplemented(i: bv32) {
    if IsCommonCopInstruction(i) then CopCommonOp(i) != COP_MFC && CopCommonOp(i) != COP_MTC
    else Cop0Op(i) != COP0_RFE
  }

  /** The instruction would reach a `Panic("Missing implementation")` in the COP2 dispatcher. */
  predicate Cop2Unimplemented(i: bv32) {
    IsCommonCopInstruction(i)
    && CopCommonOp(i) != COP_MFC && CopCommonOp(i) != COP_CFC
    && CopCommonOp(i) != COP_MTC && CopCommonOp(i) != COP_CTC
  }

  /** Executing `i` under status register `sr` aborts the emulator. */
  predicate ReachesPanic(i: bv32, sr: bv32) {
    match DecodeOp(i)
    case Cop0 => !Cop0Unusable(sr) && Cop0Unimplemented(i)
    case Cop2 => !Cop2Unusable(sr) && Cop2Unimplemented(i)
    case _ => false
  }

  /**
   * The value a register-format ALU instruction writes to rd, from rs's value
   * `a`, rt's value `b` and the shift-amount field (zero for the other codes).
   */
  function RegisterAluValue(f: Funct, a: bv32, b: bv32, shamt: nat): bv32
    requires shamt < 32
  {
    match f
    case Sll => b << shamt
    case Srl => b >> shamt
    case Sra => ShiftRightArithmetic(b, shamt)
    case Sllv => b << ShiftAmount(a)
    case Srlv => b >> ShiftAmount(a)
    case Srav => ShiftRightArithmetic(b, ShiftAmount(a))
    case And => a & b
    case Or => a | b
    case Xor => a ^ b
    case Nor => !(a | b)
    case Add => WrappingAdd(a, b)
    case Addu => WrappingAdd(a, b)
    case Sub => WrappingSub(a, b)
    case Subu => WrappingSub(a, b)
    case Slt => BoolToWord(SignedLess(a, b))
    case Sltu => BoolToWord(a < b)
    case _ => 0
  }

  /** The value an immediate-format ALU instruction writes to rt, from rs's value `a` and the instruction. */
  function ImmediateAluValue(op: Opcode, a: bv32, i: bv32): bv32 {
    match op
    case Lui => ImmZext(i) << 16
    case Andi => a & ImmZext(i)
    case Ori => a | ImmZext(i)
    case Xori => a ^ ImmZext(i)
    case Slti => BoolToWord(SignedLess(a, ImmSext(i)))
    case Sltiu => BoolToWord(a < ImmSext(i))
    case _ => WrappingAdd(a, ImmSext(i))
  }

  /** The SPECIAL (register-format) instructions, dispatched on the function field. */
  function ExecuteSpecial(s: CpuState): (t: CpuState)
    requires s.loadDelay.nextReg == NO_REG
  {
    var i := s.latches.currentInstruction;
    var rs, rt, rd := Rs(i), Rt(i), Rd(i);
    var f := DecodeFunct(i);
    match f
    case Sll | Srl | Sra | Sllv | Srlv | Srav | And | Or | Xor | Nor | Addu | Subu | Slt | Sltu =>
      WriteReg(s, rd, RegisterAluValue(f, ReadReg(s, rs), ReadReg(s, rt), Shamt(i)))
    case Add =>
      var a, b := ReadReg(s, rs), ReadReg(s, rt);
      var sum := WrappingAdd(a, b);
      if AddOverflow(a, b, sum) then RaiseException(s, Ov) else WriteReg(s, rd, sum)
    case Sub =>
      var a, b := ReadReg(s, rs), ReadReg(s, rt);
      var difference := WrappingSub(a, b);
      if SubOverflow(a, b, difference) then RaiseException(s, Ov) else WriteReg(s, rd, difference)
    case Mfhi => WriteReg(s, rd, s.regs.hi)
    case Mthi => s.(regs := s.regs.(hi := ReadReg(s, rs)))
    case Mflo => WriteReg(s, rd, s.regs.lo)
    case Mtlo => s.(regs := s.regs.(lo := ReadReg(s, rs)))
    case Mult =>
      var p := SignedMultiply(ReadReg(s, rs), ReadReg(s, rt));
      SetHiLo(s, p.hi, p.lo)
    case Multu =>
      var p := UnsignedMultiply(ReadReg(s, rs), ReadReg(s, rt));
      SetHiLo(s, p.hi, p.lo)
    case Div =>
      var q := SignedDivide(ReadReg(s, rs), ReadReg(s, rt));
      SetHiLo(s, q.hi, q.lo)
    case Divu =>
      var q := UnsignedDivide(ReadReg(s, rs), ReadReg(s, rt));
      SetHiLo(s, q.hi, q.lo)
    case Jr =>
      var t := s.(latches := s.latches.(nextIsBranchDelaySlot := true));
      Branch(t, ReadReg(t, rs))
    case Jalr =>
      var t := s.(latches := s.latches.(nextIsBranchDelaySlot := true));
      var target := ReadReg(t, rs);
      Branch(WriteReg(t, rd, t.regs.npc), target)
    case Syscall => RaiseException(s, Exception.Syscall)
    case Break => RaiseException(s, BP)
    case ReservedFunct => RaiseException(s, RI)
  }

  /** The value a load writes back, given the zero-extended lane the bus returned. */
  function LoadExtend(op: Opcode, lane: bv32): bv32 {
    match op
    case Lb => SignExtend8(Truncate8(lane))
    case Lh => SignExtend16(Truncate16(lane))
    case Lbu => ZeroExtend8(Truncate8(lane))
    case Lhu => ZeroExtend16(Truncate16(lane))
    case _ => lane
  }

  function LoadSize(op: Opcode): AccessSize {
    match op
    case Lb => Byte
    case Lbu => Byte
    case Lh => HalfWord
    case Lhu => HalfWord
    case Sb => Byte
    case Sh => HalfWord
    case _ => Word
  }

  /** lb, lh, lw, lbu, lhu: read memory, then write back through the load delay. */
  function ExecuteLoad(s: CpuState, op: Opcode): (t: CpuState)
    requires s.loadDelay.nextReg == NO_REG
  {
    var (u, v) := ReadMemory(s, LoadSize(op), EffectiveAddress(s));
    match v
    case None => u
    case Some(lane) => WriteRegDelayed(u, Rt(s.latches.currentInstruction), LoadExtend(op, lane))
  }

  /** Byte offset of an unaligned access, in bits: `(Truncate8(addr) & 3) * 8`. */
  function UnalignedShift(addr: bv32): (n: bv32)
    ensures n <= 24
  {
    (addr & 3) << 3
  }

  /** lwl: merge the high-order bytes of the aligned word into the register. */
  function MergeLeft(existing: bv32, aligned: bv32, shift: bv32): bv32
    requires shift <= 24
  {
    (existing & ((0x00FF_FFFF as bv32) >> shift)) | (aligned << (24 - shift))
  }

  /** lwr: merge the low-order bytes of the aligned word into the register. */
  function MergeRight(existing: bv32, aligned: bv32, shift: bv32): bv32
    requires shift <= 24
  {
    (existing & ((0xFFFF_FF00 as bv32) << (24 - shift))) | (aligned >> shift)
  }

  /** swl: the aligned memory word with the register's high-order bytes stored into it. */
  function StoreMergeLeft(mem: bv32, reg: bv32, shift: bv32): bv32
    requires shift <= 24
  {
    (mem & ((0xFFFF_FF00 as bv32) << shift)) | (reg >> (24 - shift))
  }

  /** swr: the aligned memory word with the register's low-order bytes stored into it. */
  function StoreMergeRight(mem: bv32, reg: bv32, shift: bv32): bv32
    requires shift <= 24
  {
    (mem & ((0x00FF_FFFF as bv32) >> (24 - shift))) | (reg << shift)
  }

  /**
   * lwl/lwr: read the aligned word and merge it with the register's committed
   * value (bypassing the load-delay shadow), then write back delayed.
   */
  function ExecuteLoadUnaligned(s: CpuState, left: bool): (t: CpuState)
    requires s.loadDelay.nextReg == NO_REG
  {
    var addr := EffectiveAddress(s);
    var (u, v) := ReadMemory(s, Word, addr & 0xFFFF_FFFC);
    match v
    case None => u
    case Some(aligned) =>
      var rt := Rt(s.latches.currentInstruction);
      var existing := u.regs.r[rt];
      var shift := UnalignedShift(addr);
      WriteRegDelayed(u, rt, if left then MergeLeft(existing, aligned, shift) else MergeRight(existing, aligned, shift))
  }

  /** The lane sb, sh and sw hand to the bus: the register's low byte, half-word or whole word. */
  function StoreLane(op: Opcode, value: bv32): bv32 {
    match op
    case Sb => ZeroExtend8(Truncate8(value))
    case Sh => ZeroExtend16(Truncate16(value))
    case _ => value
  }

  /** sb, sh, sw: store the register's low lane. */
  function ExecuteStore(s: CpuState, op: Opcode): (t: CpuState)
  {
    WriteMemory(s, LoadSize(op), EffectiveAddress(s), StoreLane(op, ReadReg(s, Rt(s.latches.currentInstruction)))).0
  }

  /** swl/swr: read the aligned word, merge the register into it, write it back. */
  function ExecuteStoreUnaligned(s: CpuState, left: bool): (t: CpuState)
  {
    var addr := EffectiveAddress(s);
    var alignedAddr := addr & 0xFFFF_FFFC;
    var reg := ReadReg(s, Rt(s.latches.currentInstruction));
    var shift := UnalignedShift(addr);
    var (u, v) := ReadMemory(s, Word, alignedAddr);
    match v
    case None => u
    case Some(mem) =>
      WriteMemory(u, Word, alignedAddr,
                  if left then StoreMergeLeft(mem, reg, shift) else StoreMergeRight(mem, reg, shift)).0
  }

  /** The condition of beq, bne, bgtz and blez (the last for any other opcode). */
  predicate BranchTaken(s: CpuState, op: Opcode) {
    var i := s.latches.currentInstruction;
    match op
    case Beq => ReadReg(s, Rs(i)) == ReadReg(s, Rt(i))
    case Bne => ReadReg(s, Rs(i)) != ReadReg(s, Rt(i))
    case Bgtz => SignedLess(0, ReadReg(s, Rs(i)))
    case _ => !SignedLess(0, ReadReg(s, Rs(i)))
  }

  /** The conditional branches beq, bne, blez, bgtz: the next slot is a delay slot whether or not they branch. */
  function ExecuteConditionalBranch(s: CpuState, op: Opcode): (t: CpuState)
    ensures t.latches.nextIsBranchDelaySlot
  {
    var taken, target := BranchTaken(s, op), BranchTarget(s);
    var t := s.(latches := s.latches.(nextIsBranchDelaySlot := true));
    if taken then Branch(t, target) else t
  }

  /** REGIMM condition: rs < 0, inverted when bit 0 of the rt field (bgez) is set. */
  predicate BCondZTaken(rt: bv32, value: bv32) {
    SignedLess(value, 0) != (rt & 1 != 0)
  }

  /**
   * The REGIMM form (bltz, bgez, bltzal, bgezal): rt bit 0 selects "greater
   * or equal", rt = 0b1000x links even when the branch is not taken.
   */
  function ExecuteBCondZ(s: CpuState): (t: CpuState)
    ensures t.latches.nextIsBranchDelaySlot
  {
    var i := s.latches.currentInstruction;
    var rt := RtField(i);
    var taken, target := BCondZTaken(rt, ReadReg(s, Rs(i))), BranchTarget(s);
    var t := s.(latches := s.latches.(nextIsBranchDelaySlot := true));
    var u := if rt & 0x1E == 0x10 then Link(t) else t;
    if taken then Branch(u, target) else u
  }

  /** `ExecuteCop0Instruction`: mfc0 (unknown register: RI), mtc0, rfe. */
  function ExecuteCop0Instruction(s: CpuState): (t: CpuState)
    requires s.loadDelay.nextReg == NO_REG && !Cop0Unimplemented(s.latches.currentInstruction)
  {
    var i := s.latches.currentInstruction;
    if IsCommonCopInstruction(i) then
      if CopCommonOp(i) == COP_MFC then
        match ReadCop0Reg(s.cop0, Rd(i))
        case Some(v) => WriteRegDelayed(s, Rt(i), v)
        case None => RaiseException(s, RI)
      else
        s.(cop0 := WriteCop0Reg(s.cop0, Rd(i), ReadReg(s, Rt(i))))
    else
      s.(cop0 := s.cop0.(sr := PopModeStack(s.cop0.sr)))
  }

  /** `ExecuteCop2Instruction`: register moves to and from the GTE, or a GTE command. */
  function ExecuteCop2Instruction(s: CpuState, gteCommand: GteCommand): (t: CpuState)
    requires s.loadDelay.nextReg == NO_REG && !Cop2Unimplemented(s.latches.currentInstruction)
  {
    var i := s.latches.currentInstruction;
    if IsCommonCopInstruction(i) then
      var op := CopCommonOp(i);
      if op == COP_CFC then WriteRegDelayed(s, Rt(i), s.gte.control[Rd(i)])
      else if op == COP_CTC then s.(gte := s.gte.(control := s.gte.control[Rd(i) := ReadReg(s, Rt(i))]))
      else if op == COP_MFC then WriteRegDelayed(s, Rt(i), s.gte.data[Rd(i)])
      else s.(gte := s.gte.(data := s.gte.data[Rd(i) := ReadReg(s, Rt(i))]))
    else
      s.(gte := gteCommand(i, s.gte))
  }

  /** Immediate-format ALU instructions; addi traps on signed overflow instead of writing rt. */
  function ExecuteImmediate(s: CpuState, op: Opcode): CpuState {
    var i := s.latches.currentInstruction;
    var a := ReadReg(s, Rs(i));
    if op == Addi && AddOverflow(a, ImmSext(i), WrappingAdd(a, ImmSext(i))) then RaiseException(s, Ov)
    else WriteReg(s, Rt(i), ImmediateAluValue(op, a, i))
  }

  /** j and jal: jal links npc into ra directly, then both redirect the fetch. */
  function ExecuteJump(s: CpuState, link: bool): (t: CpuState)
    ensures t.latches.nextIsBranchDelaySlot
  {
    var target := JumpTarget(s);
    var u := if link then Link(s) else s;
    var t := u.(latches := u.latches.(nextIsBranchDelaySlot := true));
    Branch(t, target)
  }

  /** lwc2: load a word into a GTE data register; no load delay applies. */
  function ExecuteLwc2(s: CpuState): CpuState {
    var (u, v) := ReadMemory(s, Word, EffectiveAddress(s));
    match v
    case None => u
    case Some(w) => u.(gte := u.gte.(data := u.gte.data[Rt(s.latches.currentInstruction) := w]))
  }

  /** swc2: store a GTE data register. */
  function ExecuteSwc2(s: CpuState): CpuState {
    WriteMemory(s, Word, EffectiveAddress(s), s.gte.data[Rt(s.latches.currentInstruction)]).0
  }

  /** User mode without the coprocessor-usable bit: the instruction raises CpU. */
  predicate Cop0Unusable(sr: bv32) {
    InUserMode(sr) && !Cop0UsableInUserMode(sr)
  }

  predicate Cop2Unusable(sr: bv32) {
    InUserMode(sr) && !Cop2UsableInUserMode(sr)
  }

  /** `ExecuteInstruction`: decode the current instruction's primary opcode and dispatch. */
  function ExecuteInstruction(s: CpuState, gteCommand: GteCommand): (t: CpuState)
    requires s.loadDelay.nextReg == NO_REG && !ReachesPanic(s.latches.currentInstruction, s.cop0.sr)
  {
    var op := DecodeOp(s.latches.currentInstruction);
    var sr := s.cop0.sr;
    match op
    case ReservedOp => RaiseException(s, RI)
    case Special => ExecuteSpecial(s)
    case Addi | Addiu => ExecuteImmediate(s, op)
    case BCondZ => ExecuteBCondZ(s)
    case J => ExecuteJump(s, false)
    case Jal => ExecuteJump(s, true)
    case Cop0 => if Cop0Unusable(sr) then RaiseException(s, CpU) else ExecuteCop0Instruction(s)
    case Cop2 => if Cop2Unusable(sr) then RaiseException(s, CpU) else ExecuteCop2Instruction(s, gteCommand)
    case Lwc2 => if Cop2Unusable(sr) then RaiseException(s, CpU) else ExecuteLwc2(s)
    case Swc2 => if Cop2Unusable(sr) then RaiseException(s, CpU) else ExecuteSwc2(s)
    case Beq | Bne | Bgtz | Blez => ExecuteConditionalBranch(s, op)
    case Slti | Sltiu | Andi | Ori | Xori | Lui => ExecuteImmediate(s, op)
    case Lb | Lh | Lw | Lbu | Lhu => ExecuteLoad(s, op)
    case Lwl => ExecuteLoadUnaligned(s, true)
    case Lwr => ExecuteLoadUnaligned(s, false)
    case Sb | Sh | Sw => ExecuteStore(s, op)
    case Swl => ExecuteStoreUnaligned(s, true)
    case Swr => ExecuteStoreUnaligned(s, false)
    case Cop1 | Cop3 | Lwc0 | Lwc1 | Lwc3 | Swc0 | Swc1 | Swc3 => s
  }

  // ===== the step loop =====

  /** The state after the first lines of a step: the prefetched instruction becomes the current one. */
  function BeginStep(s: CpuState): (t: CpuState)
    ensures t.regs == s.regs && t.cop0 == s.cop0 && t.latches.nextInstruction == s.latches.nextInstruction
  {
    s.(latches := s.latches.(currentInstruction := s.latches.nextInstruction, currentInstructionPc := s.regs.pc,
       currentInBranchDelaySlot := s.latches.nextIsBranchDelaySlot, currentWasBranchTaken := s.latches.branchWasTaken,
       nextIsBranchDelaySlot := false, branchWasTaken := false))
  }

  /** The interrupt check at the head of a step raises INT: one is due and the next instruction is not a GTE one. */
  predicate InterruptTaken(s: CpuState) {
    !IsCop2Instruction(s.latches.nextInstruction) && InterruptPending(s.cop0)
  }

  /** A step from `s` would execute an instruction that reaches a `Panic`. */
  predicate StepPanics(s: CpuState) {
    !InterruptTaken(s) && FetchSucceeds(s) && ReachesPanic(s.latches.nextInstruction, s.cop0.sr)
  }

  /**
   * One iteration of `Execute`'s loop: an interrupt or a failed fetch ends the
   * step early; otherwise the instruction fetched last step executes and the
   * pending load delay is promoted.
   */
  function Step(s: CpuState, gteCommand: GteCommand): (t: CpuState)
    requires Valid(s) && !StepPanics(s)
    ensures Valid(t)
  {
    var s1 := BeginStep(s);
    var (s2, interrupted) := DispatchInterrupts(s1);
    if interrupted then s2
    else
      var (s3, fetched) := FetchInstruction(s2);
      if !fetched then s3
      else PromoteLoadDelay(ExecuteInstruction(s3, gteCommand))
  }

  /**
   * `tr` lists the states a run of `|tr| - 1` steps passes through: each
   * state is a valid one between two steps, none of them reaches a `Panic`,
   * and each is the `Step` of the one before. `Step` is a function, so the
   * first state determines the rest.
   */
  predicate StepsTo(tr: seq<CpuState>, gteCommand: GteCommand) {
    |tr| > 0 && forall i | 0 <= i < |tr| - 1 :: Valid(tr[i]) && !StepPanics(tr[i]) && tr[i + 1] == Step(tr[i], gteCommand)
  }

  /** The number of loop iterations `Execute` runs for a given downcount: two ticks each, until it is negative. */
  function Iterations(downcount: int): nat {
    if downcount < 0 then 0 else downcount / 2 + 1
  }

  /** Two ticks off a non-negative downcount leave one iteration fewer. */
  lemma IterationsStep(downcount: int)
    requires downcount >= 0
    ensures Iterations(downcount - 2) == Iterations(downcount) - 1
  {
  }
}

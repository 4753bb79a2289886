/**
 * `CPU::Core` as the source has it: an object whose methods update its
 * registers, pipeline latches and load-delay slots in place. Each method is
 * proved against the function of the same name in `CpuSpec`, applied to the
 * object's state before the call; the properties of the core are proved
 * about those functions. `ExecuteInstruction` is the one exception to the
 * in-place form: it evaluates `CpuSpec.ExecuteInstruction` on the whole state
 * and installs the result with `Load`.
 */
module CpuCore {
  import opened Wrappers
  import opened Bits
  import opened Bus
  import opened CpuTypes
  import opened CpuSpec
  import CpuProperties

  /** The processor identifier `Initialize` stores in PRID. */
  const PRID_VALUE: bv32 := 0x0000_0002

  class Core {
    var regs: Registers
    var cop0: Cop0Registers
    var latches: Latches
    var loadDelay: LoadDelay
    var cacheControl: bv32
    var bus: SystemMemory
    var gte: GteRegisters

    /** Ticks executed and not yet reported to the system, and what is left of the current time slice. */
    var pendingTicks: int
    var downcount: int

    /** The GTE's command execution, and the time slice `Reset` starts with (`MAX_SLICE_SIZE`). */
    const gteCommand: GteCommand
    const maxSliceSize: int

    /** The core's architectural state as one value. */
    function State(): CpuState
      reads this`regs, this`cop0, this`latches, this`loadDelay, this`cacheControl, this`bus, this`gte
    {
      CpuState(regs, cop0, latches, loadDelay, cacheControl, bus, gte)
    }

    /** The tick counters, which only `Reset` and `Execute` change. */
    function Timing(): (int, int)
      reads this`pendingTicks, this`downcount
    {
      (pendingTicks, downcount)
    }

    /**
     * `Core()` followed by `Initialize(bus)`: the registers start cleared,
     * no load is in flight, and PRID holds the processor identifier.
     */
    constructor (memory: SystemMemory, command: GteCommand, sliceSize: int)
      ensures Valid(State()) && bus == memory && gteCommand == command && maxSliceSize == sliceSize
      ensures cop0.prid == PRID_VALUE && regs == ZeroRegisters() && loadDelay == NO_LOAD_DELAY
    {
      regs := ZeroRegisters();
      cop0 := Cop0Registers(0, 0, 0, 0, 0, 0, 0, PRID_VALUE, 0, 0, 0);
      latches := Latches(0, 0, 0, false, false, false, false);
      loadDelay := NO_LOAD_DELAY;
      cacheControl := 0;
      bus := memory;
      gte := ZeroGte();
      pendingTicks, downcount := 0, 0;
      gteCommand, maxSliceSize := command, sliceSize;
    }

    // ===== register file =====

    method ReadReg(rs: Reg) returns (v: bv32)
      ensures v == CpuSpec.ReadReg(State(), rs)
    {
      if rs == loadDelay.reg {
        v := loadDelay.oldValue;
      } else {
        v := regs.r[rs];
      }
    }

    method WriteReg(rd: Reg, value: bv32)
      modifies this
      ensures State() == CpuSpec.WriteReg(old(State()), rd, value) && Timing() == old(Timing())
    {
      if rd != 0 {
        regs := regs.(r := regs.r[rd := value]);
      }
    }

    method WriteRegDelayed(rd: Reg, value: bv32)
      requires loadDelay.nextReg == NO_REG
      modifies this
      ensures State() == CpuSpec.WriteRegDelayed(old(State()), rd, value) && Timing() == old(Timing())
    {
      if rd == 0 {
        return;
      }
      var shadow := ReadReg(rd);
      loadDelay := loadDelay.(nextReg := rd, nextOldValue := shadow);
      regs := regs.(r := regs.r[rd := value]);
    }

    // ===== pipeline, fetch and exceptions =====

    method FlushLoadDelay()
      modifies this
      ensures State() == CpuSpec.FlushLoadDelay(old(State())) && Timing() == old(Timing())
    {
      loadDelay := NO_LOAD_DELAY;
    }

    /**
     * `FlushPipeline`, `FetchInstruction` and `RaiseExceptionAt` call one
     * another as in the source. The recursion ends because an exception
     * restarts fetching at a vector, where the fetch always succeeds: the
     * `decreases` clauses rank a call by whether its fetch would fail.
     */
    method FlushPipeline()
      modifies this
      ensures State() == CpuSpec.FlushPipeline(old(State())) && Timing() == old(Timing())
      decreases if FetchSucceeds(State()) then 1 else 4
    {
      FlushLoadDelay();
      latches := latches.(branchWasTaken := false, nextIsBranchDelaySlot := false);
      var _ := FetchInstruction();
    }

    method FetchInstruction() returns (fetched: bool)
      modifies this
      ensures (State(), fetched) == CpuSpec.FetchInstruction(old(State())) && Timing() == old(Timing())
      decreases if FetchSucceeds(State()) then 0 else 3
    {
      var npc := regs.npc;
      if npc & 3 != 0 {
        cop0 := cop0.(badVaddr := npc);
        RaiseExceptionAt(AdEL, npc, false, false, 0);
        return false;
      }
      var word := Read(bus, Word, npc);
      if word.None? {
        RaiseExceptionAt(IBE, npc, false, false, 0);
        return false;
      }
      latches := latches.(nextInstruction := word.value);
      regs := regs.(pc := npc, npc := WrappingAdd(npc, 4));
      return true;
    }

    method RaiseExceptionAt(excode: Exception, epc: bv32, bd: bool, bt: bool, ce: bv32)
      modifies this
      ensures State() == CpuSpec.RaiseExceptionAt(old(State()), excode, epc, bd, bt, ce) && Timing() == old(Timing())
      decreases 2
    {
      CpuProperties.ExceptionFlushesPipeline(State(), excode, epc, bd, bt, ce);
      cop0 := cop0.(epc := if bd then WrappingSub(epc, 4) else epc,
                    cause := CauseOnException(cop0.cause, excode, bd, bt, ce),
                    tar := if bd then regs.pc else cop0.tar,
                    sr := PushModeStack(cop0.sr));
      regs := regs.(npc := GetExceptionVector(cop0.sr));
      FlushPipeline();
    }

    method RaiseException(excode: Exception)
      modifies this
      ensures State() == CpuSpec.RaiseException(old(State()), excode) && Timing() == old(Timing())
    {
      RaiseExceptionAt(excode, latches.currentInstructionPc, latches.currentInBranchDelaySlot,
                       latches.currentWasBranchTaken, CopN(latches.currentInstruction));
    }

    method SetPC(newPc: bv32)
      modifies this
      ensures State() == CpuSpec.SetPC(old(State()), newPc) && Timing() == old(Timing())
    {
      regs := regs.(npc := newPc);
      FlushPipeline();
    }

    method Branch(target: bv32)
      modifies this
      ensures State() == CpuSpec.Branch(old(State()), target) && Timing() == old(Timing())
    {
      regs := regs.(npc := target);
      latches := latches.(branchWasTaken := true);
    }

    /** `Reset`: the tick counters restart a full slice; the state is `CpuSpec.Reset` of the old one. */
    method Reset()
      modifies this
      ensures State() == CpuSpec.Reset(old(State()))
      ensures pendingTicks == 0 && downcount == maxSliceSize
    {
      pendingTicks := 0;
      downcount := maxSliceSize;
      regs := ZeroRegisters();
      cop0 := cop0.(bpc := 0, bda := 0, tar := 0, badVaddr := 0, bdam := 0, bpcm := 0,
                    epc := 0, sr := 0, cause := 0);
      gte := ZeroGte();
      SetPC(RESET_VECTOR);
    }

    // ===== interrupts =====

    method SetExternalInterrupt(bit: bv32)
      requires bit < 32
      modifies this
      ensures State() == old(State()).(cop0 := CpuSpec.SetExternalInterrupt(old(cop0), bit)) && Timing() == old(Timing())
    {
      cop0 := CpuSpec.SetExternalInterrupt(cop0, bit);
    }

    method ClearExternalInterrupt(bit: bv32)
      requires bit < 32
      modifies this
      ensures State() == old(State()).(cop0 := CpuSpec.ClearExternalInterrupt(old(cop0), bit)) && Timing() == old(Timing())
    {
      cop0 := CpuSpec.ClearExternalInterrupt(cop0, bit);
    }

    method DispatchInterrupts() returns (taken: bool)
      modifies this
      ensures (State(), taken) == CpuSpec.DispatchInterrupts(old(State())) && Timing() == old(Timing())
    {
      if IsCop2Instruction(latches.nextInstruction) {
        return false;
      }
      if !InterruptPending(cop0) {
        return false;
      }
      RaiseException(INT);
      return true;
    }

    // ===== COP0 register bank and cache control =====

    method ReadCop0Reg(reg: Reg) returns (v: Option<bv32>)
      ensures v == CpuSpec.ReadCop0Reg(cop0, reg)
    {
      if reg == COP0_BPC { v := Some(cop0.bpc); }
      else if reg == COP0_BPCM { v := Some(cop0.bpcm); }
      else if reg == COP0_BDA { v := Some(cop0.bda); }
      else if reg == COP0_BDAM { v := Some(cop0.bdam); }
      else if reg == COP0_DCIC { v := Some(cop0.dcic); }
      else if reg == COP0_JUMPDEST { v := Some(cop0.tar); }
      else if reg == COP0_BADVADDR { v := Some(cop0.badVaddr); }
      else if reg == COP0_SR { v := Some(cop0.sr); }
      else if reg == COP0_CAUSE { v := Some(cop0.cause); }
      else if reg == COP0_EPC { v := Some(cop0.epc); }
      else if reg == COP0_PRID { v := Some(cop0.prid); }
      else { v := None; }
    }

    method WriteCop0Reg(reg: Reg, value: bv32)
      modifies this
      ensures State() == old(State()).(cop0 := CpuSpec.WriteCop0Reg(old(cop0), reg, value)) && Timing() == old(Timing())
    {
      if reg == COP0_BPC { cop0 := cop0.(bpc := value); }
      else if reg == COP0_BPCM { cop0 := cop0.(bpcm := value); }
      else if reg == COP0_BDA { cop0 := cop0.(bda := value); }
      else if reg == COP0_BDAM { cop0 := cop0.(bdam := value); }
      else if reg == COP0_DCIC { cop0 := cop0.(dcic := MaskedWrite(cop0.dcic, value, DCIC_WRITE_MASK)); }
      else if reg == COP0_SR { cop0 := cop0.(sr := MaskedWrite(cop0.sr, value, SR_WRITE_MASK)); }
      else if reg == COP0_CAUSE { cop0 := cop0.(cause := MaskedWrite(cop0.cause, value, CAUSE_WRITE_MASK)); }
    }

    method WriteCacheControl(value: bv32)
      modifies this
      ensures State() == old(State()).(cacheControl := value) && Timing() == old(Timing())
    {
      cacheControl := value;
    }

    // ===== memory access =====

    method DoAlignmentCheck(isWrite: bool, size: AccessSize, addr: bv32) returns (aligned: bool)
      modifies this
      ensures (State(), aligned) == CpuSpec.DoAlignmentCheck(old(State()), isWrite, size, addr) && Timing() == old(Timing())
    {
      if Aligned(size, addr) {
        return true;
      }
      cop0 := cop0.(badVaddr := addr);
      RaiseException(if isWrite then AdES else AdEL);
      return false;
    }

    /** `ReadMemoryByte/HalfWord/Word`: a misaligned address or a bus error raises an exception. */
    method ReadMemory(size: AccessSize, addr: bv32) returns (value: Option<bv32>)
      modifies this
      ensures (State(), value) == CpuSpec.ReadMemory(old(State()), size, addr) && Timing() == old(Timing())
    {
      ghost var s := State();
      var aligned := DoAlignmentCheck(false, size, addr);
      if !aligned {
        return None;
      }
      assert State() == s;
      if !Mapped(bus, addr) {
        RaiseException(DBE);
        return None;
      }
      value := Read(bus, size, addr);
    }

    /** `WriteMemoryByte/HalfWord/Word`. */
    method WriteMemory(size: AccessSize, addr: bv32, value: bv32) returns (ok: bool)
      modifies this
      ensures (State(), ok) == CpuSpec.WriteMemory(old(State()), size, addr, value) && Timing() == old(Timing())
    {
      ghost var s := State();
      ok := DoAlignmentCheck(true, size, addr);
      if !ok {
        return;
      }
      assert State() == s;
      var m := Write(bus, size, addr, value);
      if m.None? {
        RaiseException(DBE);
        return false;
      }
      bus := m.value;
    }

    /** `SafeReadMemoryByte/HalfWord/Word`: no alignment check and no exception; only the bus decides. */
    method SafeReadMemory(size: AccessSize, addr: bv32) returns (value: Option<bv32>)
      ensures value.Some? <==> Mapped(bus, addr)
      ensures value == Read(bus, size, addr)
    {
      value := Read(bus, size, addr);
    }

    /** `SafeWriteMemoryByte/HalfWord/Word`: only the memory changes, and only when the bus accepts. */
    method SafeWriteMemory(size: AccessSize, addr: bv32, value: bv32) returns (ok: bool)
      modifies this
      ensures (State(), ok) == CpuSpec.SafeWriteMemory(old(State()), size, addr, value) && Timing() == old(Timing())
    {
      var m := Write(bus, size, addr, value);
      if m.None? {
        return false;
      }
      bus := m.value;
      return true;
    }

    // ===== execution =====

    /** Replaces the architectural state, leaving the tick counters alone. */
    method Load(t: CpuState)
      modifies this
      ensures State() == t && Timing() == old(Timing())
    {
      regs, cop0, latches, loadDelay := t.regs, t.cop0, t.latches, t.loadDelay;
      cacheControl, bus, gte := t.cacheControl, t.bus, t.gte;
    }

    /** `ExecuteInstruction`: the opcode dispatch is the function `CpuSpec.ExecuteInstruction`. */
    method ExecuteInstruction()
      requires loadDelay.nextReg == NO_REG && !ReachesPanic(latches.currentInstruction, cop0.sr)
      modifies this
      ensures State() == CpuSpec.ExecuteInstruction(old(State()), gteCommand) && Timing() == old(Timing())
    {
      Load(CpuSpec.ExecuteInstruction(State(), gteCommand));
    }

    /**
     * One pass of `Execute`'s loop body after the tick accounting: latch the
     * prefetched instruction, take a due interrupt or fetch the next word,
     * execute, and promote the load delay.
     */
    method Step()
      requires Valid(State()) && !StepPanics(State())
      modifies this
      ensures State() == CpuSpec.Step(old(State()), gteCommand) && Timing() == old(Timing())
    {
      latches := latches.(currentInstruction := latches.nextInstruction, currentInstructionPc := regs.pc,
                          currentInBranchDelaySlot := latches.nextIsBranchDelaySlot,
                          currentWasBranchTaken := latches.branchWasTaken,
                          nextIsBranchDelaySlot := false, branchWasTaken := false);
      var interrupted := DispatchInterrupts();
      if interrupted {
        return;
      }
      var fetched := FetchInstruction();
      if !fetched {
        return;
      }
      ExecuteInstruction();
      loadDelay := LoadDelay(loadDelay.nextReg, loadDelay.nextOldValue, NO_REG, 0);
    }

    /**
     * `Execute`: run steps, two ticks each, until the slice's downcount goes
     * negative. Given the states a run from the current one passes through
     * (`trace`, which the current state determines), the core ends in the
     * last of them, having run as many steps as the downcount allowed.
     */
    method Execute(ghost trace: seq<CpuState>)
      requires StepsTo(trace, gteCommand) && trace[0] == State() && |trace| == Iterations(downcount) + 1
      modifies this
      ensures State() == trace[|trace| - 1]
      ensures downcount < 0 && downcount == old(downcount) - 2 * (|trace| - 1)
      ensures pendingTicks == old(pendingTicks) + 2 * (|trace| - 1)
    {
      ghost var i := 0;
      while downcount >= 0
        invariant 0 <= i < |trace| && State() == trace[i] && |trace| == i + Iterations(downcount) + 1
        invariant downcount == old(downcount) - 2 * i && pendingTicks == old(pendingTicks) + 2 * i
        decreases Iterations(downcount)
      {
        IterationsStep(downcount);
        pendingTicks := pendingTicks + 2;
        downcount := downcount - 2;
        Step();
        i := i + 1;
      }
    }
  }
}

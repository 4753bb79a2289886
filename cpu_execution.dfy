/**
 * Properties of the step loop (`CPU::Core::Execute`) and of reset: when an
 * interrupt is taken, what a failed fetch does, and how runs of steps
 * compose.
 */
module CpuExecution {
  import opened Wrappers
  import opened Bits
  import opened Bus
  import opened CpuTypes
  import opened CpuSpec
  import opened CpuProperties

  /**
   * Reset starts at the reset vector with the instruction there prefetched,
   * zeroes the general registers, hi, lo and the resettable COP0 registers
   * (so the CPU is in kernel mode with interrupts off), and keeps PRID and
   * DCIC, which `Reset` does not touch.
   */
  lemma ResetState(s: CpuState)
    ensures var t := Reset(s);
      && t.regs.pc == RESET_VECTOR && t.regs.npc == WrappingAdd(RESET_VECTOR, 4)
      && Read(s.bus, Word, RESET_VECTOR) == Some(t.latches.nextInstruction)
      && (forall k: Reg :: t.regs.r[k] == 0) && t.regs.hi == 0 && t.regs.lo == 0
      && t.cop0 == Cop0Registers(0, 0, 0, 0, 0, 0, 0, s.cop0.prid, 0, 0, s.cop0.dcic)
      && !InUserMode(t.cop0.sr) && !InterruptPending(t.cop0)
      && t.loadDelay.reg == NO_REG && !t.latches.branchWasTaken && !t.latches.nextIsBranchDelaySlot
      && t.bus == s.bus
  {
  }

  /**
   * An interrupt that is due is taken at the head of a step, before the
   * prefetched instruction executes: EPC is that instruction's address (its
   * branch's inside a delay slot), CAUSE.Excode is INT, and no general
   * register changes.
   */
  lemma InterruptTakenBeforeInstruction(s: CpuState, g: GteCommand)
    requires Valid(s) && InterruptTaken(s)
    ensures var t := Step(s, g);
      && t == RaiseException(BeginStep(s), INT)
      && t.cop0.epc == (if s.latches.nextIsBranchDelaySlot then WrappingSub(s.regs.pc, 4) else s.regs.pc)
      && CauseExcode(t.cop0.cause) == INT.Code()
      && t.regs.r == s.regs.r && t.bus == s.bus
  {
  }

  /**
   * The ordinary step: no interrupt is taken and the fetch at `npc`
   * succeeds. The instruction prefetched last step becomes the current one
   * (with its address and delay-slot flags), the word at `npc` is
   * prefetched and `pc` advances, then the current instruction executes and
   * its pending load is promoted, so that the instruction it wrote is the
   * one whose old value the next instruction sees.
   */
  lemma StepExecutes(s: CpuState, g: GteCommand)
    requires Valid(s) && !StepPanics(s) && !InterruptTaken(s) && FetchSucceeds(s)
    ensures var u := Prefetch(BeginStep(s));
      && Step(s, g) == PromoteLoadDelay(ExecuteInstruction(u, g))
      && u.latches.currentInstruction == s.latches.nextInstruction && u.latches.currentInstructionPc == s.regs.pc
      && u.latches.currentInBranchDelaySlot == s.latches.nextIsBranchDelaySlot
      && u.latches.currentWasBranchTaken == s.latches.branchWasTaken
      && !u.latches.nextIsBranchDelaySlot && !u.latches.branchWasTaken
      && Read(s.bus, Word, s.regs.npc) == Some(u.latches.nextInstruction)
      && u.regs.pc == s.regs.npc && u.regs.npc == WrappingAdd(s.regs.npc, 4)
      && u.regs.r == s.regs.r && u.regs.hi == s.regs.hi && u.regs.lo == s.regs.lo
      && u.cop0 == s.cop0 && u.loadDelay == s.loadDelay && u.bus == s.bus
    ensures Step(s, g).loadDelay.reg == ExecuteInstruction(Prefetch(BeginStep(s)), g).loadDelay.nextReg
  {
  }

  /**
   * A GTE instruction is never interrupted: it executes when its fetch
   * succeeds, even with an interrupt due.
   */
  lemma GteInstructionDefersInterrupt(s: CpuState, g: GteCommand)
    requires Valid(s) && !StepPanics(s) && IsCop2Instruction(s.latches.nextInstruction) && FetchSucceeds(s)
    ensures Step(s, g) == PromoteLoadDelay(ExecuteInstruction(Prefetch(BeginStep(s)), g))
  {
  }

  /**
   * A misaligned `npc` ends the step before the current instruction
   * executes: AdEL, with `npc` as both EPC and BadVaddr.
   */
  lemma StepFetchMisaligned(s: CpuState, g: GteCommand)
    requires Valid(s) && !InterruptTaken(s) && s.regs.npc & 3 != 0
    ensures var t := Step(s, g);
      && t == FetchInstruction(BeginStep(s)).0
      && t.cop0.epc == s.regs.npc && t.cop0.badVaddr == s.regs.npc
      && CauseExcode(t.cop0.cause) == AdEL.Code()
      && t.regs.r == s.regs.r
  {
    FetchMisaligned(BeginStep(s));
  }

  /** A bus error on the prefetch ends the step likewise: IBE, EPC = `npc`, BadVaddr kept. */
  lemma StepFetchBusError(s: CpuState, g: GteCommand)
    requires Valid(s) && !InterruptTaken(s) && s.regs.npc & 3 == 0 && !Mapped(s.bus, s.regs.npc)
    ensures var t := Step(s, g);
      && t == FetchInstruction(BeginStep(s)).0
      && t.cop0.epc == s.regs.npc && t.cop0.badVaddr == s.cop0.badVaddr
      && CauseExcode(t.cop0.cause) == IBE.Code()
      && t.regs.r == s.regs.r
  {
    FetchBusError(BeginStep(s));
  }

  // ===== runs of steps =====

  lemma {:induction false} TraceAgreesAt(a: seq<CpuState>, b: seq<CpuState>, g: GteCommand, i: nat)
    requires StepsTo(a, g) && StepsTo(b, g) && a[0] == b[0] && |a| == |b| && i < |a|
    ensures a[i] == b[i]
  {
    if i > 0 {
      TraceAgreesAt(a, b, g, i - 1);
    }
  }

  /** A run is determined by its first state and its length, so `Execute`'s final state is a function of its initial one. */
  lemma TraceDetermined(a: seq<CpuState>, b: seq<CpuState>, g: GteCommand)
    requires StepsTo(a, g) && StepsTo(b, g) && a[0] == b[0] && |a| == |b|
    ensures a == b
  {
    forall i | 0 <= i < |a|
      ensures a[i] == b[i]
    {
      TraceAgreesAt(a, b, g, i);
    }
  }

  /** Any stretch of a run is itself a run. */
  lemma TraceSlice(tr: seq<CpuState>, j: nat, k: nat, g: GteCommand)
    requires StepsTo(tr, g) && j < k <= |tr|
    ensures StepsTo(tr[j..k], g)
  {
    var u := tr[j..k];
    forall i | 0 <= i < |u| - 1
      ensures Valid(u[i]) && !StepPanics(u[i]) && u[i + 1] == Step(u[i], g)
    {
      assert u[i] == tr[j + i] && u[i + 1] == tr[j + i + 1];
    }
  }

  /** A run followed by a run from its last state is a run: `Execute` over two slices is one longer run. */
  lemma TraceJoin(a: seq<CpuState>, b: seq<CpuState>, g: GteCommand)
    requires StepsTo(a, g) && StepsTo(b, g) && a[|a| - 1] == b[0]
    ensures StepsTo(a + b[1..], g)
  {
    var c := a + b[1..];
    forall i | 0 <= i < |c| - 1
      ensures Valid(c[i]) && !StepPanics(c[i]) && c[i + 1] == Step(c[i], g)
    {
      if i < |a| - 1 {
        assert c[i] == a[i] && c[i + 1] == a[i + 1];
      } else {
        var j := i - (|a| - 1);
        assert c[i] == b[j] && c[i + 1] == b[j + 1];
      }
    }
  }
}

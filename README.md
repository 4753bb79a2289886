# DuckStation CPU core and analog controller, modelled in Dafny

This project models two parts of the DuckStation PlayStation emulator and
proves properties of them.

**The R3000A CPU core (`CPU::Core`, `src/pse/cpu_core.cpp`).**
- `CpuTypes`, `Bits` and `Bus` hold the data model:
  - the instruction fields and opcodes;
  - the general registers, the COP0 registers and the pipeline latches;
  - the two load-delay slots;
  - the memory bus, as a partial map from word addresses to words.
- `CpuSpec` states every operation of the core as a function on one `CpuState` value:
  - register reads and writes, with the load delay;
  - instruction fetch, exceptions and interrupts;
  - the COP0 register bank;
  - the memory gateway with its alignment checks;
  - the instruction interpreter;
  - one step of the execution loop.
- `CpuCore.Core` is the object the source has, with the source's fields. Its register, pipeline, exception, COP0 and memory methods update those fields in place, and each is proved to leave the object in the state its `CpuSpec` function computes from the old state. `Core.ExecuteInstruction` is the exception: it evaluates the function `CpuSpec.ExecuteInstruction` on the whole state and installs the result with `Core.Load`. `Core.Execute` runs the loop, and its invariant ties the object to a run of `CpuSpec.Step`.
- `CpuProperties`, `CpuInstructions` and `CpuExecution` prove what the core promises about these functions:
  - load-delay visibility;
  - trapping and wrapping arithmetic;
  - exception entry and `rfe`;
  - fetch and memory faults;
  - the unaligned-access idioms;
  - COP0 write masks;
  - interrupt lines;
  - reset;
  - determinism and composition of runs.

**The DualShock analog controller (`AnalogController`, `src/core/analog_controller.cpp`).**
- `AnalogSpec` models the controller as a value `Controller`. The serial protocol is the function `Transfer`: one byte in, one byte out, an acknowledgement, and the next controller state. Its transfer states are the source's `State` enumeration, with numbered families as one constructor carrying the position.
- `AnalogCore.AnalogController` is the object with the source's fields:
  - the six rumble configuration bytes, the two motor values and the four stick values are arrays;
  - its `Transfer` and the other methods are proved against `AnalogSpec`.
- `AnalogProperties` proves:
  - the identifier reply;
  - button press/release behaviour;
  - which command bytes Idle accepts;
  - when a byte is acknowledged;
  - the poll sequence in digital and analog mode;
  - the configuration commands;
  - the rumble configuration exchange;
  - mode toggling;
  - reset.

Settings that the source reads from global configuration become parameters: the D-pad emulation setting, force-analog-on-reset, and the per-game "disable analog mode forcing".

## Model

| member | source | states |
|---|---|---|
| CpuSpec.ReadReg | src/pse/cpu_core.cpp:323-326 | register 0 always reads as zero |
| CpuSpec.WriteReg | src/pse/cpu_core.cpp:328-332 | rd gets the value except register 0; every other register and the rest of the state are unchanged |
| CpuSpec.WriteRegDelayed | src/pse/cpu_core.cpp:334-344 | a write to register 0 changes nothing; otherwise rd gets the value now, its old value is kept for the delay slot, and no other register changes |
| CpuSpec.PromoteLoadDelay | src/pse/cpu_core.cpp:529-533 | the pending load slot becomes the current one (register and old value), no next load is pending, registers, COP0, latches and memory kept |
| CpuSpec.FlushLoadDelay | src/pse/cpu_core.cpp:302-308 | both load-delay slots are emptied |
| CpuSpec.GetExceptionVector | src/pse/cpu_core.cpp:211-228 | the vector is the boot one when SR.BEV is set, the RAM one otherwise |
| CpuSpec.FetchInstruction | src/pse/cpu_core.cpp:537-556 | the fetch succeeds iff npc is aligned and mapped; success prefetches the word at npc and advances pc/npc; failure keeps the general registers and clears the pending load |
| CpuSpec.FlushPipeline | src/pse/cpu_core.cpp:310-321 | both load-delay slots are emptied, neither branch flag survives, the general registers are kept |
| CpuSpec.RaiseExceptionAt | src/pse/cpu_core.cpp:245-273 | exception entry keeps the general registers, memory and GTE and empties both load-delay slots |
| CpuSpec.RaiseException | src/pse/cpu_core.cpp:230-243 | an exception raised by the current instruction keeps the general registers, memory and GTE |
| CpuSpec.SetPC | src/pse/cpu_core.cpp:89-93 | setting npc flushes the pipeline: both load-delay slots are emptied, neither branch flag survives, the general registers are kept |
| CpuSpec.ResetCop0 | src/pse/cpu_core.cpp:27-47 | reset clears every COP0 register except PRID and DCIC |
| CpuSpec.SetExternalInterrupt | src/pse/cpu_core.cpp:275-278 | only CAUSE changes |
| CpuSpec.ClearExternalInterrupt | src/pse/cpu_core.cpp:280-283 | only CAUSE changes |
| CpuSpec.DispatchInterrupts | src/pse/cpu_core.cpp:285-300 | an interrupt is taken iff one is pending, enabled and the next instruction is not a GTE instruction; taking it raises INT, otherwise nothing changes |
| CpuSpec.DoAlignmentCheck | src/pse/cpu_core.cpp:106-130 | the check passes iff the address is aligned to the access size, changing nothing; a failure records BadVaddr and raises AdEL for reads, AdES for writes |
| CpuSpec.ReadMemory | src/pse/cpu_core.cpp:95-130 | a successful read changes nothing; a failed one raises an exception; general registers, memory and GTE are kept either way |
| CpuSpec.WriteMemory | src/pse/cpu_core.cpp:132-165 | a successful write changes only memory; registers and GTE are kept either way |
| CpuSpec.SafeWriteMemory | src/pse/cpu_core.cpp:188-203 | the write succeeds iff the address is mapped; success changes only memory, failure changes nothing |
| CpuSpec.Branch | src/pse/cpu_core.cpp:205-209 | the next fetch comes from the target and the branch is recorded as taken |
| CpuSpec.ExecuteConditionalBranch | src/pse/cpu_core.cpp:1048-1084 | the next instruction is always a delay slot |
| CpuSpec.ExecuteBCondZ | src/pse/cpu_core.cpp:1085-1103 | the next instruction is always a delay slot |
| CpuSpec.ExecuteJump | src/pse/cpu_core.cpp:1033-1047 | the next instruction is always a delay slot |
| CpuSpec.BeginStep | src/pse/cpu_core.cpp:514-520 | latching the prefetched instruction changes no register and keeps the prefetched word |
| CpuSpec.Step | src/pse/cpu_core.cpp:509-534 | one loop iteration from a valid state ends in a valid state (no next load pending, register 0 zero); its four paths are the CpuExecution lemmas (ordinary step, interrupt, GTE instruction, failed fetch) |
| CpuSpec.IterationsStep | src/pse/cpu_core.cpp:509-512 | two ticks off a non-negative downcount leave one loop iteration fewer |
| Bus.Read | src/pse/cpu_core.cpp:95-130 | a bus read succeeds iff the word holding the address is mapped |
| Bus.Write | src/pse/cpu_core.cpp:132-165 | a bus write succeeds iff the word is mapped and never changes which words are mapped |
| Bits.Signed | src/pse/cpu_core.cpp:759-760 | a word read as s32 lies between -2^31 and 2^31-1 |
| Bits.TruncatingDivisionHolds | src/pse/cpu_core.cpp:776-777 | C++'s truncating quotient and remainder satisfy num == q * denom + r with abs(r) < abs(denom) and r zero or of num's sign |
| Bits.TruncatedDivisionUnique | src/pse/cpu_core.cpp:776-777 | the truncating quotient and remainder are the only pair satisfying that rule |
| Bits.HalfWordSignExtends | src/pse/cpu_core.cpp:910-919 | sign-extending the low half-word keeps it and copies bit 15 into bits 16-31 |
| CpuProperties.ReadAfterWriteReg | src/pse/cpu_core.cpp:323-332 | a read after a write sees the value, unless the register is 0 or shadowed by the load delay; other registers are unaffected |
| CpuProperties.LoadDelayVisibility | src/pse/cpu_core.cpp:334-344 | the instruction after a load still sees the old value, the one after that the loaded value; other registers are untouched |
| CpuProperties.AddOverflowIsSignedOverflow | src/pse/cpu_core.cpp:471-474 | the add-overflow test is two's-complement overflow (same-sign operands, result of the other sign) |
| CpuProperties.SubOverflowIsSignedOverflow | src/pse/cpu_core.cpp:476-479 | the sub-overflow test is two's-complement overflow of a - b |
| CpuProperties.SignedLessBySign | src/pse/cpu_core.cpp:696-702 | slt's comparison is the signed one: a negative word is below every non-negative one, same signs compare as unsigned |
| CpuProperties.OverflowBoundaries | src/pse/cpu_core.cpp:471-479 | 0x7FFFFFFF+1 overflows, 0xFFFFFFFF+1 does not; 0x80000000-1 overflows, 0-1 does not |
| CpuProperties.UnsignedWordRoundTrip | src/pse/cpu_core.cpp:795-796 | a word read as u32 and cast back is the same word |
| CpuProperties.SignedWordRoundTrip | src/pse/cpu_core.cpp:759-760 | a word read as s32 and cast back to u32 is the same word |
| CpuProperties.DivideSpecialCases | src/pse/cpu_core.cpp:757-800 | div by 0 puts the dividend in hi and 0xFFFFFFFF (dividend >= 0) or 1 in lo; divu by 0 always 0xFFFFFFFF; 0x80000000 / -1 gives lo = 0x80000000, hi = 0 |
| CpuProperties.SignedDivideTruncates | src/pse/cpu_core.cpp:757-781 | any other div: lo and hi are the q and r with num == q * denom + r, abs(r) < abs(denom), r zero or of num's sign; q fits in s32 |
| CpuProperties.UnsignedDivideTruncates | src/pse/cpu_core.cpp:782-800 | divu with a nonzero divisor: lo and hi are the q and r with num == q * denom + r, 0 <= r < denom; q fits in u32 |
| CpuProperties.SignedMultiplyProduct | src/pse/cpu_core.cpp:736-746 | hi:lo is the whole 64-bit product of the operands as s32; hi read as s32 is the upper word |
| CpuProperties.UnsignedMultiplyProduct | src/pse/cpu_core.cpp:747-756 | hi:lo is the whole 64-bit product of the operands as u32 |
| CpuProperties.ShiftRightArithmeticFloors | src/pse/cpu_core.cpp:593-598 | the arithmetic shift is division of the s32 value by 2^n rounded down: the q with q * 2^n <= value < (q + 1) * 2^n, of the value's sign and between it and 0 |
| CpuProperties.MaskedWriteBits | src/pse/cpu_core.cpp:389-455 | a masked COP0 write takes the masked bits from the value and keeps the others |
| CpuProperties.ExceptionEntry | src/pse/cpu_core.cpp:245-273 | EPC is the faulting address (one word back in a delay slot, where TAR gets pc), CAUSE and SR are updated, all other COP0 and general registers kept, load delays and branch flags dropped, and the vector's instruction prefetched |
| CpuProperties.ExceptionFlushesPipeline | src/pse/cpu_core.cpp:245-273 | exception entry equals FlushPipeline from the exception vector with the updated COP0 registers |
| CpuProperties.CauseFields | src/pse/cpu_core.cpp:245-273 | the written CAUSE holds the exception code, coprocessor number and both delay-slot flags and keeps every other bit |
| CpuProperties.ModeStackPush | src/pse/cpu_core.cpp:245-273 | exception entry pushes the KU/IE stack and enters kernel mode with interrupts off; higher SR bits kept |
| CpuProperties.ModeStackPop | src/pse/cpu_core.cpp:1218-1223 | rfe pops the KU/IE stack, the old pair staying in place |
| CpuProperties.RfeUndoesExceptionEntry | src/pse/cpu_core.cpp:1218-1223 | rfe after exception entry restores the current and previous pairs |
| CpuProperties.FetchMisaligned | src/pse/cpu_core.cpp:539-545 | a misaligned npc fails the fetch with AdEL, BadVaddr = EPC = npc, outside any delay slot |
| CpuProperties.FlushPipelineFetches | src/pse/cpu_core.cpp:310-321 | after a flush pc is the old npc; an aligned mapped npc prefetches its word and advances npc by 4 with COP0 and memory kept; a misaligned one raises AdEL with BadVaddr = EPC = npc, an unmapped one IBE with EPC = npc |
| CpuProperties.SetPCFetches | src/pse/cpu_core.cpp:89-93 | setting pc to an address behaves as FlushPipelineFetches from that address: its word is prefetched, or AdEL / IBE is raised with EPC = the address |
| CpuProperties.FetchBusError | src/pse/cpu_core.cpp:546-551 | an unmapped npc fails the fetch with IBE, EPC = npc, BadVaddr untouched |
| CpuProperties.RaisedByCurrentInstruction | src/pse/cpu_core.cpp:230-243 | an exception raised by the current instruction records its code, its delay-slot flag, its coprocessor number and its address as EPC |
| CpuProperties.ReadMemoryMisaligned | src/pse/cpu_core.cpp:106-130 | a misaligned read (never a byte) fails with AdEL and BadVaddr = address |
| CpuProperties.ReadMemoryBusError | src/pse/cpu_core.cpp:95-130 | an aligned read of unmapped memory fails with DBE, BadVaddr untouched |
| CpuProperties.ReadMemorySucceeds | src/pse/cpu_core.cpp:95-130 | an aligned mapped read returns the bus's value and changes nothing |
| CpuProperties.WriteMemoryMisaligned | src/pse/cpu_core.cpp:142-165 | a misaligned write (never a byte) fails with AdES, BadVaddr = address, memory unchanged |
| CpuProperties.WriteMemoryBusError | src/pse/cpu_core.cpp:132-165 | an aligned write to unmapped memory fails with DBE, memory and BadVaddr unchanged |
| CpuProperties.WriteMemorySucceeds | src/pse/cpu_core.cpp:132-165 | an aligned mapped write changes memory and nothing else |
| CpuProperties.Cop0ImplementedRegisters | src/pse/cpu_core.cpp:346-387 | mfc0 knows exactly registers 3, 5-9 and 11-15 |
| CpuProperties.Cop0ReadAfterWrite | src/pse/cpu_core.cpp:346-455 | reading back a COP0 write gives the value for the breakpoint registers, the masked merge for DCIC/SR/CAUSE, and the old value for the rest |
| CpuProperties.Cop0WriteIsolated | src/pse/cpu_core.cpp:389-455 | a COP0 write changes at most the named register; TAR, BadVaddr, EPC and PRID are never written |
| CpuProperties.Cop0ReadOnlyBits | src/pse/cpu_core.cpp:389-455 | the read-only bits of SR, CAUSE and DCIC survive any write; CAUSE takes only the two software-interrupt bits |
| CpuProperties.SetExternalInterruptLine | src/pse/cpu_core.cpp:275-278 | raising line n sets exactly CAUSE.Ip bit n; lines past 7 change nothing |
| CpuProperties.ClearExternalInterruptLine | src/pse/cpu_core.cpp:280-283 | lowering line n clears exactly CAUSE.Ip bit n; lines past 7 change nothing |
| CpuProperties.ClearUndoesSet | src/pse/cpu_core.cpp:275-283 | lowering a line forgets a raise and raising forgets a lowering |
| CpuProperties.RaisedLineIsPending | src/pse/cpu_core.cpp:275-300 | a raised line that SR.Im enables makes an interrupt pending while SR.IEc is set |
| CpuProperties.UnalignedLoadPair | src/pse/cpu_core.cpp:954-981 | lwr then lwl assemble the unaligned little-endian word from its two aligned words |
| CpuProperties.UnalignedStorePair | src/pse/cpu_core.cpp:1006-1032 | swr then swl store an unaligned word that lwr/lwl read back, keeping the bytes outside it |
| CpuProperties.AlignedStorePair | src/pse/cpu_core.cpp:954-1032 | at an aligned address the pair stores and loads the whole word |
| CpuInstructions.DispatchSpecial | src/pse/cpu_core.cpp:575-838 | register-format instructions never panic and run ExecuteSpecial |
| CpuInstructions.DispatchAddImmediate | src/pse/cpu_core.cpp:864-884 | addi/addiu never panic and run ExecuteImmediate |
| CpuInstructions.DispatchBranchOnEquality | src/pse/cpu_core.cpp:1048-1066 | beq/bne never panic and run ExecuteConditionalBranch |
| CpuInstructions.DispatchBranchOnSign | src/pse/cpu_core.cpp:1067-1084 | bgtz/blez never panic and run ExecuteConditionalBranch |
| CpuInstructions.DispatchBCondZ | src/pse/cpu_core.cpp:1085-1103 | the REGIMM branches never panic and run ExecuteBCondZ |
| CpuInstructions.DispatchJump | src/pse/cpu_core.cpp:1033-1038 | j never panics and runs ExecuteJump without linking |
| CpuInstructions.DispatchJumpAndLink | src/pse/cpu_core.cpp:1040-1046 | jal never panics and runs ExecuteJump with linking |
| CpuInstructions.DispatchLoad | src/pse/cpu_core.cpp:921-930 | lw never panics and runs ExecuteLoad |
| CpuInstructions.DispatchCop0 | src/pse/cpu_core.cpp:1104-1116 | a usable, implemented COP0 instruction runs ExecuteCop0Instruction |
| CpuInstructions.AddTrapsOnOverflow | src/pse/cpu_core.cpp:652-666 | add writes the wrapped sum to rd, or on signed overflow raises Ov and changes no register |
| CpuInstructions.AdduWraps | src/pse/cpu_core.cpp:667-673 | addu writes the wrapped sum and never traps |
| CpuInstructions.SubTrapsOnOverflow | src/pse/cpu_core.cpp:674-688 | sub writes the wrapped difference, or on signed overflow raises Ov and changes no register |
| CpuInstructions.SubuWraps | src/pse/cpu_core.cpp:689-695 | subu writes the wrapped difference and never traps |
| CpuInstructions.AddiTrapsOnOverflow | src/pse/cpu_core.cpp:864-878 | addi adds the sign-extended immediate into rt, or raises Ov on signed overflow |
| CpuInstructions.AddiuWraps | src/pse/cpu_core.cpp:879-884 | addiu adds the sign-extended immediate and never traps |
| CpuInstructions.DivideNeverTraps | src/pse/cpu_core.cpp:757-800 | div/divu only write hi and lo, even for a zero divisor |
| CpuInstructions.ShiftRightArithmeticDivides | src/pse/cpu_core.cpp:593-622 | sra/srav write to rd the s32 value of rt divided by 2^shift, rounded down |
| CpuInstructions.MultiplyWritesProduct | src/pse/cpu_core.cpp:736-756 | mult/multu write the upper and lower words of the whole product of rs and rt into hi and lo, nothing else |
| CpuInstructions.DivWritesQuotient | src/pse/cpu_core.cpp:757-781 | div with a nonzero divisor other than 0x80000000 / -1 writes the truncating quotient to lo and the remainder to hi |
| CpuInstructions.DivuWritesQuotient | src/pse/cpu_core.cpp:782-800 | divu with a nonzero divisor writes the quotient to lo and the remainder to hi |
| CpuInstructions.MoveHiLo | src/pse/cpu_core.cpp:710-735 | mfhi/mflo copy hi/lo into rd; mthi/mtlo copy rs into hi/lo; nothing else changes |
| CpuInstructions.LoadWritesBack | src/pse/cpu_core.cpp:899-953 | an aligned mapped load writes the extended lane to rt through the load delay; otherwise AdEL (misaligned) or DBE (unmapped) is raised, no general register changes and no load is pending |
| CpuInstructions.LoadByteSignExtends | src/pse/cpu_core.cpp:899-908 | lb keeps the low byte and copies bit 7 into bits 8-31 |
| CpuInstructions.LoadHalfWordSignExtends | src/pse/cpu_core.cpp:910-919 | lh keeps the low half-word and copies bit 15 into bits 16-31 |
| CpuInstructions.LoadUnsignedZeroExtends | src/pse/cpu_core.cpp:921-953 | lbu/lhu keep the low byte/half-word and clear the rest; lw keeps the word |
| CpuInstructions.StoreLaneBits | src/pse/cpu_core.cpp:982-1004 | sb/sh hand the bus rt's low byte/half-word, sw the word |
| CpuInstructions.StoreWrites | src/pse/cpu_core.cpp:982-1004 | an aligned mapped store changes memory by the lane and nothing else |
| CpuInstructions.StoreFaults | src/pse/cpu_core.cpp:982-1004 | a misaligned store raises AdES, an unmapped one DBE; memory and general registers unchanged |
| CpuInstructions.ReservedOpcodeTraps | src/pse/cpu_core.cpp:1164-1182 | a reserved primary opcode raises RI |
| CpuInstructions.SpecialTraps | src/pse/cpu_core.cpp:818-836 | syscall, break and a reserved function raise Syscall, BP and RI |
| CpuInstructions.Cop0UnusableTraps | src/pse/cpu_core.cpp:1104-1116 | COP0 in user mode without CU0 raises CpU |
| CpuInstructions.Cop2UnusableTraps | src/pse/cpu_core.cpp:1117-1129 | COP2 in user mode without CU2 raises CpU |
| CpuInstructions.Lwc2UnusableTraps | src/pse/cpu_core.cpp:1130-1147 | lwc2 in user mode without CU2 raises CpU |
| CpuInstructions.Swc2UnusableTraps | src/pse/cpu_core.cpp:1148-1163 | swc2 in user mode without CU2 raises CpU |
| CpuInstructions.CoprocessorNumbers | src/pse/cpu_core.cpp:230-243 | the coprocessor number recorded for COP0 instructions is 0, for GTE instructions 2 |
| CpuInstructions.Mfc0UnknownRegister | src/pse/cpu_core.cpp:1193-1201 | mfc0 of an unimplemented register raises RI |
| CpuInstructions.Mfc0KnownRegister | src/pse/cpu_core.cpp:1193-1201 | mfc0 of an implemented register loads it into rt through the load delay |
| CpuInstructions.Mtc0Writes | src/pse/cpu_core.cpp:1203-1207 | mtc0 writes rt into the named COP0 register and nothing else |
| CpuInstructions.RfePopsModeStack | src/pse/cpu_core.cpp:1218-1223 | rfe pops the mode stack and changes nothing else |
| CpuInstructions.ConditionalBranch | src/pse/cpu_core.cpp:1048-1084 | the next instruction is a delay slot; a taken branch redirects to the target, an untaken one keeps npc; no register changes |
| CpuInstructions.BCondZLinks | src/pse/cpu_core.cpp:1085-1103 | bltzal/bgezal link ra even when not taken; bltz/bgez leave registers alone |
| CpuInstructions.JumpRegister | src/pse/cpu_core.cpp:801-817 | jr/jalr jump to rs's value as read before the link, making the next instruction a taken branch's delay slot; jalr writes npc into rd unless rd is r0; nothing else changes |
| CpuInstructions.Jumps | src/pse/cpu_core.cpp:1033-1047 | j/jal jump within the delay slot's 256 MiB region; jal links npc into ra |
| CpuExecution.ResetState | src/pse/cpu_core.cpp:27-47 | reset starts at the reset vector with its word prefetched, zeroes registers and the resettable COP0 registers (kernel mode, interrupts off), keeps PRID, DCIC and memory |
| CpuExecution.InterruptTakenBeforeInstruction | src/pse/cpu_core.cpp:514-524 | a due interrupt is taken before the prefetched instruction runs: EPC is its address (its branch's in a delay slot), code INT, registers kept |
| CpuExecution.StepExecutes | src/pse/cpu_core.cpp:514-533 | with no interrupt taken and a successful fetch, the prefetched instruction becomes current with its pc and delay-slot flags, the word at npc is prefetched, pc and npc advance, the instruction executes and its pending load is promoted |
| CpuExecution.GteInstructionDefersInterrupt | src/pse/cpu_core.cpp:285-300 | a GTE instruction runs even with an interrupt due |
| CpuExecution.StepFetchMisaligned | src/pse/cpu_core.cpp:522-524 | a misaligned npc ends the step with AdEL before the instruction runs |
| CpuExecution.StepFetchBusError | src/pse/cpu_core.cpp:522-524 | an unmapped npc ends the step with IBE before the instruction runs |
| CpuExecution.TraceAgreesAt | src/pse/cpu_core.cpp:507-535 | two runs from the same state agree at every step |
| CpuExecution.TraceDetermined | src/pse/cpu_core.cpp:507-535 | a run is determined by its first state and length |
| CpuExecution.TraceSlice | src/pse/cpu_core.cpp:507-535 | any stretch of a run is a run |
| CpuExecution.TraceJoin | src/pse/cpu_core.cpp:507-535 | a run followed by a run from its last state is one run |
| CpuCore.Core.constructor | src/pse/cpu_core.cpp:15-25 | registers start cleared, neither load slot holds a load, PRID holds the processor identifier |
| CpuCore.Core.ReadReg | src/pse/cpu_core.cpp:323-326 | returns CpuSpec.ReadReg of the core's state |
| CpuCore.Core.WriteReg | src/pse/cpu_core.cpp:328-332 | new state is CpuSpec.WriteReg of the old one; tick counters kept |
| CpuCore.Core.WriteRegDelayed | src/pse/cpu_core.cpp:334-344 | new state is CpuSpec.WriteRegDelayed of the old one |
| CpuCore.Core.FlushLoadDelay | src/pse/cpu_core.cpp:302-308 | new state is CpuSpec.FlushLoadDelay of the old one |
| CpuCore.Core.FlushPipeline | src/pse/cpu_core.cpp:310-321 | new state is CpuSpec.FlushPipeline of the old one |
| CpuCore.Core.FetchInstruction | src/pse/cpu_core.cpp:537-556 | new state and success flag are CpuSpec.FetchInstruction of the old state |
| CpuCore.Core.RaiseExceptionAt | src/pse/cpu_core.cpp:245-273 | new state is CpuSpec.RaiseExceptionAt of the old one |
| CpuCore.Core.RaiseException | src/pse/cpu_core.cpp:230-243 | new state is CpuSpec.RaiseException of the old one |
| CpuCore.Core.SetPC | src/pse/cpu_core.cpp:89-93 | new state is CpuSpec.SetPC of the old one |
| CpuCore.Core.Branch | src/pse/cpu_core.cpp:205-209 | new state is CpuSpec.Branch of the old one |
| CpuCore.Core.Reset | src/pse/cpu_core.cpp:27-47 | new state is CpuSpec.Reset of the old one; the slice restarts full with no pending ticks |
| CpuCore.Core.SetExternalInterrupt | src/pse/cpu_core.cpp:275-278 | only COP0 changes, as CpuSpec.SetExternalInterrupt says |
| CpuCore.Core.ClearExternalInterrupt | src/pse/cpu_core.cpp:280-283 | only COP0 changes, as CpuSpec.ClearExternalInterrupt says |
| CpuCore.Core.DispatchInterrupts | src/pse/cpu_core.cpp:285-300 | new state and result are CpuSpec.DispatchInterrupts of the old state |
| CpuCore.Core.ReadCop0Reg | src/pse/cpu_core.cpp:346-387 | returns CpuSpec.ReadCop0Reg of the COP0 registers |
| CpuCore.Core.WriteCop0Reg | src/pse/cpu_core.cpp:389-455 | only COP0 changes, as CpuSpec.WriteCop0Reg says |
| CpuCore.Core.WriteCacheControl | src/pse/cpu_core.cpp:457-461 | only the cache-control register changes |
| CpuCore.Core.DoAlignmentCheck | src/pse/cpu_core.cpp:106-160 | new state and result are CpuSpec.DoAlignmentCheck of the old state |
| CpuCore.Core.ReadMemory | src/pse/cpu_core.cpp:95-130 | new state and value are CpuSpec.ReadMemory of the old state |
| CpuCore.Core.WriteMemory | src/pse/cpu_core.cpp:132-165 | new state and result are CpuSpec.WriteMemory of the old state |
| CpuCore.Core.SafeReadMemory | src/pse/cpu_core.cpp:167-186 | the read succeeds iff the address is mapped and returns the bus's value |
| CpuCore.Core.SafeWriteMemory | src/pse/cpu_core.cpp:188-203 | new state and result are CpuSpec.SafeWriteMemory of the old state |
| CpuCore.Core.Load | src/pse/cpu_core.cpp:558-1183 | the architectural state becomes the given one, tick counters kept |
| CpuCore.Core.ExecuteInstruction | src/pse/cpu_core.cpp:558-1183 | new state is CpuSpec.ExecuteInstruction of the old one |
| CpuCore.Core.Step | src/pse/cpu_core.cpp:514-533 | one loop iteration: new state is CpuSpec.Step of the old one |
| CpuCore.Core.Execute | src/pse/cpu_core.cpp:507-535 | the core ends in the last state of the run from its state, having spent two ticks per step until the downcount went negative |
| AnalogSpec.GetID | src/core/analog_controller.cpp:201-211 | the high byte is 0x5A; 0x5AF3 in configuration mode, else 0x5A73 iff analog mode and 0x5A41 iff digital |
| AnalogSpec.SetButtonState | src/core/analog_controller.cpp:138-144 | an in-range code acts as SetButton on that button; only buttons and the queued toggle can change |
| AnalogSpec.SetAxisState | src/core/analog_controller.cpp:116-119 | the named axis takes the value, the other three and the rest of the controller are kept |
| AnalogSpec.SetAnalogMode | src/core/analog_controller.cpp:213-225 | only the analog-mode flag changes, to the requested value |
| AnalogSpec.SetMotorState | src/core/analog_controller.cpp:227-231 | the named motor takes the value, the other motor and the rest of the rumble state are kept |
| AnalogSpec.SmallMotorValue | src/core/analog_controller.cpp:266-272 | the small motor is driven fully on (255) iff bit 0 of the byte is set, else off (0) |
| AnalogSpec.ResetRumbleConfig | src/core/analog_controller.cpp:252-264 | rumble is locked (also the legacy control), all six configuration bytes are 0xFF, both motors are unmapped and stopped |
| AnalogSpec.ExchangeConfigByte | src/core/analog_controller.cpp:301-316 | the input is stored in configuration byte index; only the bytes and the motor mapping change |
| AnalogSpec.FinishRumbleConfig | src/core/analog_controller.cpp:573-600 | only the motors and the unlocked flag change |
| AnalogProperties.ButtonBitsDistinct | src/core/analog_controller.cpp:121-136 | two different buttons occupy different bits |
| AnalogProperties.PressClearsReleaseSets | src/core/analog_controller.cpp:121-136 | a press clears the button's bit and a release sets it |
| AnalogProperties.PressKeepsOthers | src/core/analog_controller.cpp:121-136 | pressing a button changes no other button |
| AnalogProperties.ReleaseKeepsOthers | src/core/analog_controller.cpp:121-136 | releasing a button changes no other button |
| AnalogProperties.SetButtonHeld | src/core/analog_controller.cpp:121-136 | after SetButtonState on a non-Analog button it is held iff pressed, nothing else changes |
| AnalogProperties.SetButtonKeepsOthers | src/core/analog_controller.cpp:121-136 | every other button keeps its state |
| AnalogProperties.SetButtonAnalog | src/core/analog_controller.cpp:121-136 | the Analog button changes no bit: a press queues a mode toggle, a release does nothing |
| AnalogProperties.SetButtonStateOutOfRange | src/core/analog_controller.cpp:138-144 | a code outside the button range is ignored |
| AnalogProperties.ReleaseUndoesPress | src/core/analog_controller.cpp:121-136 | releasing a button just pressed restores the previous button state |
| AnalogProperties.PressReleaseRoundTrip | src/core/analog_controller.cpp:121-136 | press then release of an up button leaves the controller as it was |
| AnalogProperties.ComplementHeld | src/core/analog_controller.cpp:146-150 | a bit of the complemented button state is set iff the button is held |
| AnalogProperties.ButtonStateBitsActiveHigh | src/core/analog_controller.cpp:146-150 | the reported bits are the complement of the button state, zero above bit 15 |
| AnalogProperties.ExtraButtonMask | src/core/analog_controller.cpp:233-250 | with the setting on in digital mode outside configuration mode, each D-pad bit is cleared iff the left stick is at or past 64/191 in its direction; the low nibble is never cleared; otherwise the mask is 0xFF |
| AnalogProperties.CentredStickPressesNothing | src/core/analog_controller.cpp:233-250 | a centred left stick clears no D-pad bit |
| AnalogProperties.IdleAcceptance | src/core/analog_controller.cpp:318-379 | 0x42/0x43 are always accepted, 0x44-0x47/0x4C/0x4D only in configuration mode; accepted bytes are acknowledged with the identifier's low byte; anything else replies 0xFF, stays Idle unchanged and is acknowledged iff it is 0x01 |
| AnalogProperties.ConfigCommandsNeedConfigMode | src/core/analog_controller.cpp:333-377 | outside configuration mode the configuration commands are rejected |
| AnalogProperties.UnlockRumbleCommand | src/core/analog_controller.cpp:363-371 | 0x4D unlocks rumble and unmaps both motors |
| AnalogProperties.IdMsbReply | src/core/analog_controller.cpp:292-299 | every identifier-MSB state replies 0x5A, acknowledges and moves to its command's next state |
| AnalogProperties.AckIffContinues | src/core/analog_controller.cpp:274-619 | outside Idle a byte is acknowledged iff the transfer continues; leaving Idle is always acknowledged |
| AnalogProperties.TerminalStates | src/core/analog_controller.cpp:449-607 | the last state of each command returns to Idle without acknowledging |
| AnalogProperties.ButtonsMsbContinuesInAnalogMode | src/core/analog_controller.cpp:398-414 | the high button byte continues to the right stick with ack iff in analog or configuration mode, else ends in Idle |
| AnalogProperties.PollPreamble | src/core/analog_controller.cpp:318-381 | 0x01, 0x42, any byte: replies 0xFF, ID low byte, 0x5A, all acknowledged, only the state changes |
| AnalogProperties.DigitalPollButtons | src/core/analog_controller.cpp:383-414 | a digital poll replies the masked low and the high button byte and ends without ack |
| AnalogProperties.AnalogPollButtons | src/core/analog_controller.cpp:383-414 | an analog poll replies both button bytes unmasked, both acknowledged, continuing to the sticks |
| AnalogProperties.PollSticks | src/core/analog_controller.cpp:416-458 | the sticks reply right X, right Y, left X, left Y, the last unacknowledged, then Idle |
| AnalogProperties.ConfigModeSetModeReply | src/core/analog_controller.cpp:462-472 | configuration mode is entered iff the byte is 1; outside it the reply is the low button byte continuing the poll, inside it 0x00 and five pad bytes |
| AnalogProperties.SetAnalogModeCommand | src/core/analog_controller.cpp:476-498 | 0x00/0x01 select digital/analog, 0x02/0x03 unlock/lock; other values keep the setting |
| AnalogProperties.GetAnalogModeReportsMode | src/core/analog_controller.cpp:503 | the third reply byte of 0x45 is 1 in analog mode, 0 in digital |
| AnalogProperties.Command4CReportsActuator | src/core/analog_controller.cpp:548-561 | the third reply of 0x4C is 0x04 after mode 0, 0x07 after mode 1, else 0x00 |
| AnalogProperties.GetSetRumbleExchange | src/core/analog_controller.cpp:567-600 | each configuration byte replies the old value and stores the input; 0x00 maps the small motor, 0x01 the large motor, other mappings kept; acknowledged iff not the sixth byte |
| AnalogProperties.ExchangeStep | src/core/analog_controller.cpp:301-316 | one exchanged byte: reply, stored bytes and mapping as ExchangeConfigByte gives them |
| AnalogProperties.GetSetRumbleRoundTrip | src/core/analog_controller.cpp:301-316 | exchanging the same byte again replies what the previous exchange stored |
| AnalogProperties.GetSetRumbleFinish | src/core/analog_controller.cpp:573-600 | after the sixth byte an unmapped motor is stopped, a mapped one keeps running, and rumble relocks iff neither is mapped |
| AnalogProperties.MotorForConfigIndex | src/core/analog_controller.cpp:266-272 | an unmapped index drives nothing; the small motor wins when both are mapped to it |
| AnalogProperties.ResetRumbleConfigDrivesNothing | src/core/analog_controller.cpp:252-272 | after a rumble reset no configuration byte drives a motor and every byte reads 0xFF |
| AnalogProperties.LegacyRumble | src/core/analog_controller.cpp:383-414 | with rumble locked, a first byte in 0x40-0x7F arms the legacy control, and an armed control (newly or from before) lets the second byte's bit 0 drive the small motor; unarmed, the small motor stops; the second byte disarms it; the large motor is kept |
| AnalogProperties.LegacyArmingSurvivesReset | src/core/analog_controller.cpp:172-199 | a transfer reset keeps the legacy arming unless it toggles the mode (which resets rumble) |
| AnalogProperties.ResetTransferStateToggle | src/core/analog_controller.cpp:172-199 | ends in Idle with no toggle queued; a queued toggle flips the mode and resets rumble unless locked |
| AnalogProperties.ToggleTwice | src/core/analog_controller.cpp:121-199 | two Analog presses, each followed by a transfer reset, restore the mode |
| AnalogProperties.ResetController | src/core/analog_controller.cpp:24-46 | Idle, out of configuration mode, rumble reset, analog iff forced and forcing not disabled; buttons, sticks, lock and queued toggle kept |
| AnalogCore.AnalogController.constructor | src/core/analog_controller.cpp:11-15 | sticks centred at 0x80, no button held, then Reset with force-analog still off (settings are loaded only afterwards, lines 735-744), so a new controller is digital; the given settings hold from the next Reset on |
| AnalogCore.AnalogController.GetID | src/core/analog_controller.cpp:201-211 | returns AnalogSpec.GetID of the controller |
| AnalogCore.AnalogController.SetButton | src/core/analog_controller.cpp:121-136 | new state is AnalogSpec.SetButton of the old one |
| AnalogCore.AnalogController.SetButtonState | src/core/analog_controller.cpp:138-144 | new state is AnalogSpec.SetButtonState of the old one |
| AnalogCore.AnalogController.GetButtonStateBits | src/core/analog_controller.cpp:146-150 | returns AnalogSpec.GetButtonStateBits of the controller |
| AnalogCore.AnalogController.SetAxisState | src/core/analog_controller.cpp:116-119 | new state is AnalogSpec.SetAxisState of the old one |
| AnalogCore.AnalogController.GetExtraButtonMaskLSB | src/core/analog_controller.cpp:233-250 | returns AnalogSpec.GetExtraButtonMaskLSB of the controller |
| AnalogCore.AnalogController.SetAnalogMode | src/core/analog_controller.cpp:213-225 | new state is AnalogSpec.SetAnalogMode of the old one |
| AnalogCore.AnalogController.SetMotorState | src/core/analog_controller.cpp:227-231 | only the motor array changes, as AnalogSpec.SetMotorState says |
| AnalogCore.AnalogController.SetMotorStateForConfigIndex | src/core/analog_controller.cpp:266-272 | only the motor array changes, as AnalogSpec.SetMotorStateForConfigIndex says |
| AnalogCore.AnalogController.ResetRumbleConfig | src/core/analog_controller.cpp:252-264 | rumble becomes AnalogSpec.ResetRumbleConfig(), the six-byte array filled with 0xFF; nothing else changes |
| AnalogCore.AnalogController.ResetTransferState | src/core/analog_controller.cpp:172-199 | new state is AnalogSpec.ResetTransferState of the old one |
| AnalogCore.AnalogController.Reset | src/core/analog_controller.cpp:24-46 | new state is AnalogSpec.Reset of the old one |
| AnalogCore.AnalogController.ResetWith | src/core/analog_controller.cpp:24-46 | new state is AnalogSpec.Reset of the old one for the force-analog flag as it stands when Reset runs (false inside the constructor) |
| AnalogCore.AnalogController.TransferIdle | src/core/analog_controller.cpp:318-379 | a byte in Idle: reply, ack and new state are AnalogSpec.TransferIdle of the old state |
| AnalogCore.AnalogController.IdStateMsb | src/core/analog_controller.cpp:292-299 | reply, ack and new state are AnalogSpec.TransferIdMsb of the old state |
| AnalogCore.AnalogController.FixedReply | src/core/analog_controller.cpp:283-290 | replies the fixed byte and moves to the next state; nothing else changes |
| AnalogCore.AnalogController.PollRumbleLsb | src/core/analog_controller.cpp:383-396 | the rumble effect of the first button byte, as AnalogSpec.PollRumbleLsb |
| AnalogCore.AnalogController.GetStateButtonsLSB | src/core/analog_controller.cpp:383-396 | reply, ack and new state are AnalogSpec.TransferButtonsLsb of the old state |
| AnalogCore.AnalogController.PollRumbleMsb | src/core/analog_controller.cpp:398-414 | the rumble effect of the second button byte, as AnalogSpec.PollRumbleMsb |
| AnalogCore.AnalogController.GetStateButtonsMSB | src/core/analog_controller.cpp:398-414 | reply, ack and new state are AnalogSpec.TransferButtonsMsb of the old state |
| AnalogCore.AnalogController.GetStateAxis | src/core/analog_controller.cpp:416-458 | reply, ack and new state are AnalogSpec.TransferAxis of the old state (stick byte, motor byte, next state) |
| AnalogCore.AnalogController.ConfigModeSetMode | src/core/analog_controller.cpp:462-472 | reply, ack and new state are AnalogSpec.TransferConfigModeSetMode of the old state |
| AnalogCore.AnalogController.ExchangeConfigByte | src/core/analog_controller.cpp:301-316 | returns the byte stored before; rumble becomes AnalogSpec.ExchangeConfigByte of the old one, nothing else changes |
| AnalogCore.AnalogController.FinishRumbleConfig | src/core/analog_controller.cpp:584-591 | rumble becomes AnalogSpec.FinishRumbleConfig of the old one |
| AnalogCore.AnalogController.GetSetRumble | src/core/analog_controller.cpp:567-600 | result is AnalogSpec.Transfer of the old state |
| AnalogCore.AnalogController.TransferPoll | src/core/analog_controller.cpp:383-458 | result is AnalogSpec.Transfer of the old state |
| AnalogCore.AnalogController.TransferModeCommand | src/core/analog_controller.cpp:462-506 | result is AnalogSpec.Transfer of the old state |
| AnalogCore.AnalogController.TransferCommand46 | src/core/analog_controller.cpp:510-524 | result is AnalogSpec.Transfer of the old state |
| AnalogCore.AnalogController.TransferQueryCommand | src/core/analog_controller.cpp:527-564 | result is AnalogSpec.Transfer of the old state |
| AnalogCore.AnalogController.Transfer | src/core/analog_controller.cpp:274-619 | one byte exchanged: reply, acknowledgement and new state are AnalogSpec.Transfer of the old state, whose properties are the lemmas above |

## Left out

- The header files (`cpu_types.h`, `cpu_core.h`, `analog_controller.h`) are not part of this model. The constants defined there are restated in `CpuTypes` and `AnalogSpec` from the published DuckStation headers:
  - the opcode and function numbers;
  - the COP0 register numbers and write masks;
  - the exception codes;
  - the reset and exception vectors;
  - the button and axis numbering.
- `DoMemoryAccess` and the bus behind it are not part of this model. The bus is a partial map from word addresses to words, with no device side effects and no access timing.
  - The exception and reset vectors are assumed mapped, because an unmapped vector makes the source recurse without end.
- The GTE is not part of this model. Its command execution is a parameter (`GteCommand`), and its registers are two 32-entry banks.
- The `Panic("Missing implementation")` paths for unimplemented COP0/COP2 operations are excluded by precondition (`ReachesPanic`, `StepPanics`) and are not modelled as behaviour.
- `MAX_SLICE_SIZE` is a constructor parameter. `Initialize(Bus*)` is folded into the constructor.
- `DoState` (save states), `DisassembleAndPrint`, `PrintInstruction` and all logging are left out: they are serialisation and I/O.
- The tick counters are unbounded integers. The source's 32-bit tick counters could wrap, and that is not modelled.
- `Core.Execute` takes the run it performs as a ghost argument (`StepsTo`), which the current state determines (`TraceDetermined`). It does not construct the run itself.
- The analog controller's `DoState`, `GetType`, `Create`, the name and settings tables (`StaticGet*`), `GetAxisCodeByName`/`GetButtonCodeByName`, `GetVibrationMotorCount` and `LoadSettings` are left out. They are registration, serialisation and configuration I/O. `LoadSettings` is replaced by the constructor's parameters, which take effect after the constructor's own `Reset`, as `LoadSettings` does when it runs after construction. The header declaring the force-analog flag is not part of this model; its default is taken to be `false`, the default `LoadSettings` itself uses.
- `SetAxisState(s32, float)` and `GetVibrationMotorStrength` are left out, because they are floating-point scaling. The byte-valued `SetAxisState(Axis, u8)` is modelled.
- The on-screen messages (`AddOSDMessage`) that `Reset` and `ResetTransferState` show, and the debug logging in `Transfer`, are left out.
- `AnalogCore.AnalogController.Transfer` splits the source's single `switch` into methods by command group. The byte-level behaviour is the function `AnalogSpec.Transfer`.
- `CpuCore.Core.ExecuteInstruction` does not update the fields one at a time as the source's `switch` does: it evaluates `CpuSpec.ExecuteInstruction` on the whole state and installs the result with `CpuCore.Core.Load`. The order of the field writes inside one instruction is not modelled; only the state after the instruction is.
- `CpuProperties.AddOverflowIsSignedOverflow`: signed overflow of add and addi is stated through the sign bits of the operands and of the wrapped sum, not as the integer sum of the two `s32` values leaving the range -2^31 to 2^31-1. The model does not relate 32-bit bit-vector addition to integer addition.
- `CpuProperties.SubOverflowIsSignedOverflow`: likewise for sub, through sign bits rather than as the integer difference leaving the `s32` range.
- The logical shifts (sll, srl and their variable forms), the bitwise operations (and, or, xor, nor) and the immediate-format ALU instructions are stated only by `CpuSpec.RegisterAluValue` and `CpuSpec.ImmediateAluValue`. No lemma restates their results in integer terms.
- `Transfer`'s `default:` branch (`UnreachableCode()`) has no counterpart, because every transfer state is a constructor that `Transfer` handles.

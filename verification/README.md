# A model of the JavaScriptCore assembler back end

JavaScriptCore's JIT writes machine code through a small assembler for each
processor. This project models the parts of it whose correctness is not visible in
any single function, and proves what they are for. It is written in Dafny 4.11;
`dafny verify dfyconfig.toml` checks everything.

**ARM with constant pools.** Loads of constants are queued with a pool index in
place of an offset, and from time to time a pool is inserted into the code behind a
branch and the pending loads are patched. `ConstantPool` has the buffer as a value
and the distance accounting that decides when to flush; `ConstantPoolBuffer` is the
buffer as the program has it, with its arrays, lists and loops. `CodeLayout` adds
the history: which emitted operation each word belongs to. `CodeLinking` and
`CodeCopy` have jumps, labels, linking and the copy to its final address;
`ArmExecution` runs the copied words on a processor whose pc reads as the address
plus 8, and shows that they do what the emitted operations say. `ArmPrograms` goes
back to the calls: what they say, free of pools and offsets, is what the copy runs.
`ArmCalls` has calls and returns, `ArmHistory` what stays over a run. `FlushWindows` and
`JitSequences` treat the sequences that must not be torn apart, `AssemblerRuns` the
alignment loop and whole runs. `ArmAssembler` is the assembler object, and `Alignment` the
mask test of the alignment.

**ARM values.** `ArmFields` has words by their digits, `ArmImmediate` the search for one or two modified immediates
(ARM Architecture Reference Manual ARMv7-A/R, DDI 0406, section A5.2.4), `ArmMove`
that moving a value to a register works in every form, and `ArmMultiply` the
multiplication with a branch on its result. The form of `encodeComplexImm` is the one
for architectures before version 7.

**Thumb-2.** `ThumbImmediate` has the modified immediates of DDI 0406, section
A6.3.2, `ThumbJumps` the jump slots that are rewritten in place.

**x86 and x86-64.** `AssemblerBuffers` is the growing byte buffer, `X86Operands` the
encoding of operands against a decoder after the Intel 64 and IA-32 Software
Developer's Manual, Volume 2A, sections 2.1.5 and 2.2.1, `X86Formatter` the
formatter with its space reservation, and `X86Linking` the rel32 jumps.

**Call links.** `CallLinks` has the call sites of code blocks, which are linked to
their callees at the second call and never again, as objects that point to each
other, the invariant over all of them, and a reference model that every
interleaving agrees with. `CallHistory` tells from the commands of a run alone what
each site is linked to.

The configuration shipped for the device undefines ENABLE_JIT and ENABLE_ASSEMBLER
(WKC/include/wkcplatform.h:299-300); the model takes them as on.

Words and sizes are mathematical integers, bounded where the program relies on a
width: 32-bit words, 12-bit and 24-bit offset fields, `% 2^32` where the program
casts. Where bits are rotated or masked the model uses 32-bit vectors. A few values
come from outside: the address the code is copied to, and what a processor does for
instructions other than the ones treated here (`Semantics` in `ArmExecution`).

## Where the code does not do what it seems to promise

- `ensureSpace(insn, const)` is meant to keep a reserved sequence free of pools. The
  flush test takes both sizes in bytes, but the JIT passes the number of constants
  (webkit/JavaScriptCore/jit/JITInlineMethods.h:116-145, webkit/JavaScriptCore/jit/JIT.h:494-512,
  674-692). Its sequences take labels, and a label asks for more space than an
  instruction. And while no constant is pending the call does nothing, although the
  distance counter runs down. `FlushWindows.ReservationKeepsTogether` has the exact
  condition for all sequences that fit, `FlushWindows.TornWindow` the counters before
  the call. Given the bytes of both and no labels, or in a debug build, which
  reserves more, what fits stays together whenever a constant is pending.
- Of the sequences the JIT does reserve for, two can be torn in a release build while
  a constant is pending (`JitSequences.TornWhilePending`): the method check, in which
  a branch then stands at the word that is patched later
  (webkit/JavaScriptCore/jit/JITPropertyAccess.cpp:1604,
  `JitSequences.MethodCheckTorn`, reached in `JitSequences.MethodCheckMissed`), and
  get_by_id, all of whose words stay together and only the label behind them moves.
  With an empty pool each of them can (`JitSequences.SequenceTorn`). The assembler's
  own windows (label, jump, call, 16-byte alignment) do hold.
- `JIT::unlinkCall` is there so that no call site keeps comparing with a function that
  is gone (webkit/JavaScriptCore/jit/JIT.cpp:580-591). Links to native functions are
  not recorded, and their destructor unlinks nothing
  (webkit/JavaScriptCore/runtime/JSFunction.cpp:82-97), so those links stay.
  `CallHistory.NativeLinkStays` says exactly which sites have one.
- `align(n)` is meant to return an n-aligned label
  (webkit/JavaScriptCore/assembler/ARMAssembler.h:614-620). For 8 the `size()` behind
  the padding loop can place a pool of odd length, after which the code is not
  8-aligned. `AssemblerRuns.AlignedTo8` has the exact condition on the state before
  the call, `AssemblerRuns.AlignmentMissed` states in which it happens. All other
  powers of two are safe (`AssemblerRuns.AlignedLabel`), and the JIT only aligns to
  16 (webkit/JavaScriptCore/assembler/AbstractMacroAssembler.h:428-432).
- `makeEncodedImm` stores byte 0 for values 0xXY00XY00, where byte 1 is meant
  (webkit/JavaScriptCore/assembler/ARMv7Assembler.h:291-295). The contract of
  `ThumbImmediate.MakeEncodedImm` says for exactly which values the result is wrong.
- The pool-size half of the flush test never decides, since the distance half has
  fired before (`ConstantPool.PoolNeverExhausted`).

## Model

| member | source | states |
|---|---|---|
| `ArmPrograms.EveryProgramRuns` | webkit/JavaScriptCore/assembler/ARMAssembler.h:594-629 | Every sequence of assembler calls says a program of its own, with no pool, offset or layout in it; wherever the copy is placed the program's lines stand at ascending addresses and running the copy is running the lines, jumps going to the lines their labels were taken at. |
| `ArmPrograms.EveryRunWrites` | webkit/JavaScriptCore/assembler/ARMAssembler.h:594-689 | The operations, jumps and labels of every run are those the calls say: each word, constant and condition in order, each jump to the label it was last linked to, nops and nothing else in front of an aligned label. |
| `ArmPrograms.CommandWrites` | webkit/JavaScriptCore/assembler/ARMAssembler.h:594-689 | Call by call: what is written, and that nothing written before changes but the target of a linked jump. |
| `ArmPrograms.AlignedOps` | webkit/JavaScriptCore/assembler/ARMAssembler.h:614-620 | align() puts nops only, and with no constant pending exactly the missing ones. |
| `ArmHistory.EveryRunAccounts` | webkit/JavaScriptCore/assembler/AssemblerBufferWithConstantPool.h:193-285 | In every run the distance counter is 2048 less the bytes put since the last pool, or since the start, and no reusable constant waits twice in the pool. |
| `ArmHistory.RunKeeps` | webkit/JavaScriptCore/assembler/AssemblerBufferWithConstantPool.h:113-285 | Further calls leave every operation at its place; only a link changes its target and constant. |
| `ArmHistory.SpaceIsEnsured` | webkit/JavaScriptCore/assembler/AssemblerBufferWithConstantPool.h:119-123 | Behind ensureSpace the same flush test passes, and where it passed before nothing happens. |
| `ArmCalls.EveryCallArrives` | webkit/JavaScriptCore/assembler/MacroAssemblerARM.h:660-664 | Every call of every run, whatever the flags and wherever the copy: two instructions from mov lr, pc to the label the call is linked to, with the address behind the load in lr and nothing else changed. |
| `ArmCalls.CallArrives` | webkit/JavaScriptCore/assembler/MacroAssemblerARM.h:660-664 | The same for any call that stands in the code. |
| `ArmCalls.PaddingIsIdle` | webkit/JavaScriptCore/assembler/ARMAssembler.h:614-620 | The word align() pads with changes nothing. |
| `AssemblerRuns.EveryRunExecutes` | webkit/JavaScriptCore/assembler/AssemblerBufferWithConstantPool.h:193-303 | Whatever sequence of assembler calls built the code, and wherever the copy is placed, it runs the emitted operations in order under pc = address + 8, up to any operation or out of the code; every load delivers its constant, jumps go where they were linked, and each word executed is an operation's or a barrier, never a pool or padding word. |
| `AssemblerRuns.EveryRunStaysInReach` | webkit/JavaScriptCore/assembler/AssemblerBufferWithConstantPool.h:235-303 | In every reachable state each pending load can reach the pool a flush would place, at most 508 constants are pending, and the pool-size half of the flush test never decides. |
| `ArmExecution.CodeRunsAsEmitted` | webkit/JavaScriptCore/assembler/ARMAssembler.cpp:380-401 | The copied code, entered at its first byte, simulates the emitted operations one by one, a barrier branch at most in between, and leaves for the address they leave for. |
| `ArmExecution.CopyRunsFrom` | webkit/JavaScriptCore/assembler/ARMAssembler.cpp:380-401 | The same from any operation to any later one. |
| `ArmExecution.CopyRunsFromLabel` | webkit/JavaScriptCore/assembler/ARMAssembler.h:609-612 | Entered at the address of a label, as a call returns to one, the copy goes on with the label's operation. |
| `ArmExecution.RunSimulated` | webkit/JavaScriptCore/assembler/AssemblerBufferWithConstantPool.h:251-285 | A run of k operations is a run of k to 2k instructions that touches only operations and barriers. |
| `ArmExecution.DepartureSimulated` | webkit/JavaScriptCore/assembler/AssemblerBufferWithConstantPool.h:251-285 | So is one whose last operation leaves the code, by a call, a return or a jump nobody linked. |
| `ArmExecution.PoolIsNotCode` | webkit/JavaScriptCore/assembler/AssemblerBufferWithConstantPool.h:258-274 | The words such a run is made of are never a constant in a pool or the word padding it. |
| `ArmExecution.CodeWords` | webkit/JavaScriptCore/assembler/AssemblerBufferWithConstantPool.h:251-285 | A word is an operation's, a barrier with its distance, or it is not run. |
| `ArmExecution.OpExecutes` | webkit/JavaScriptCore/assembler/ARMAssembler.cpp:37-68 | The word an operation became does what the operation means: a load reads its own constant, a linked jump goes to its label under its own condition, an unlinked one to 0xffffffff. |
| `ArmExecution.SettledExecutes` | webkit/JavaScriptCore/assembler/ARMAssembler.cpp:52-68 | A jump goes to the same address whether it was rewritten to a branch or left as a pool load. |
| `ArmExecution.BarrierExecutes` | webkit/JavaScriptCore/assembler/ARMAssembler.h:770-775 | The barrier branch lands on the first word behind padding and pool. |
| `CodeCopy.EveryJumpCopied` | webkit/JavaScriptCore/assembler/ARMAssembler.cpp:52-68 | After the copy a linked jump is a branch to its label under its own condition, or a load of the label's final address; one tagged useConstantPool is still a load, an unlinked one still reads 0xffffffff, and the size is a multiple of 8. |
| `CodeCopy.CopyResolvesAll` | webkit/JavaScriptCore/assembler/ARMAssembler.cpp:380-401 | The loop over the recorded jumps resolves each of them and leaves every other operation, slot and barrier as laid out. |
| `CodeCopy.ResolveStep` | webkit/JavaScriptCore/assembler/ARMAssembler.cpp:389-397 | One round of that loop: the load it looks at can be resolved, and the jumps done before stay done. |
| `CodeCopy.LinkBranchSettles` | webkit/JavaScriptCore/assembler/ARMAssembler.cpp:52-68 | linkBranch settles its jump, in range as a branch, else through its slot. |
| `CodeCopy.FinishKeepsLaid` | webkit/JavaScriptCore/assembler/ARMAssembler.cpp:382-385 | The forced flush and the bkpt give an 8-aligned stream with nothing pending, labels still leading to their operations. |
| `CodeCopy.NoBarrierAtEnd` | webkit/JavaScriptCore/assembler/ARMAssembler.cpp:382-385 | Behind the last operation come the pool and a padding word at most on either side, no barrier. |
| `CodeCopy.WriteTouchesOnly` | webkit/JavaScriptCore/assembler/ARMAssembler.cpp:52-68 | Rewriting a load whose constant is its own, or that constant, changes no word another operation consists of or reads. |
| `ConstantPool.ReachBound` | webkit/JavaScriptCore/assembler/ARMAssembler.cpp:70-83 | At any flush every pending load lies before the pool and its final offset fits 12 bits, although the distance is charged while the pool is empty and the last constant delta survives a flush. |
| `ConstantPool.FlushKeepsBudget` | webkit/JavaScriptCore/assembler/AssemblerBufferWithConstantPool.h:251-285 | A flush empties the pool and re-establishes the distance invariant. |
| `ConstantPool.FlushedCode` | webkit/JavaScriptCore/assembler/AssemblerBufferWithConstantPool.h:251-285 | What a flush leaves: patched words in place, then barrier, padding and pool, the pool 8-aligned and the barrier's distance right. |
| `ConstantPool.PutIntKeepsBudget` | webkit/JavaScriptCore/assembler/AssemblerBufferWithConstantPool.h:163-168 | An instruction put keeps the distance invariant. |
| `ConstantPool.QueueLoadKeepsBudget` | webkit/JavaScriptCore/assembler/AssemblerBufferWithConstantPool.h:193-214 | Queueing a load keeps the invariant, whether its constant is shared or new. |
| `ConstantPool.PutIntWithConstantIntKeepsBudget` | webkit/JavaScriptCore/assembler/AssemblerBufferWithConstantPool.h:193-214 | So does the whole put with its flush test. |
| `ConstantPool.PoolNeverExhausted` | webkit/JavaScriptCore/assembler/AssemblerBufferWithConstantPool.h:296-303 | The second half of the flush test is dead, and a load is only queued with fewer than 508 constants pending. |
| `ConstantPool.FindReusable` | webkit/JavaScriptCore/assembler/AssemblerBufferWithConstantPool.h:198-205 | The scan finds the first equal reusable entry, or none if there is none. |
| `ArmWord.ResolveLoadFields` | webkit/JavaScriptCore/assembler/ARMAssembler.cpp:70-83 | The patched load is the same load, addresses pool + 4 * index also in the backward case, and has bit 0 clear. |
| `ArmWord.TagLoadFields` | webkit/JavaScriptCore/assembler/ARMAssembler.h:646-651 | A queued load is the same load with its pool index in the offset field and bit 0 set. |
| `ArmWord.BranchWordFields` | webkit/JavaScriptCore/assembler/ARMAssembler.h:770-775 | A branch word decodes to its condition and its signed 24-bit distance. |
| `ArmWord.LiteralLoadFields` | webkit/JavaScriptCore/assembler/ARMAssembler.h:424-432 | ldr_imm and ldr_un_imm assemble a pc-relative load of their register under their condition. |
| `CodeLayout.BufferFollows` | webkit/JavaScriptCore/assembler/AssemblerBufferWithConstantPool.h:113-214 | The stream with its history moves exactly as the buffer alone does. |
| `CodeLayout.FlushKeepsOp` | webkit/JavaScriptCore/assembler/AssemblerBufferWithConstantPool.h:276-280 | A flush keeps every operation; a pending load then reads, from the pool word of its own entry, the constant it was put with. |
| `CodeLayout.FlushKeepsLaid` | webkit/JavaScriptCore/assembler/AssemblerBufferWithConstantPool.h:251-285 | A flush keeps the whole layout, and with a barrier the end of the code stays reachable from the last operation. |
| `CodeLayout.FlushKeepsLabel` | webkit/JavaScriptCore/assembler/AssemblerBufferWithConstantPool.h:251-285 | A label taken before a flush still leads to its operation. |
| `CodeLayout.EmitInsnKeepsOpen` | webkit/JavaScriptCore/assembler/AssemblerBufferWithConstantPool.h:163-168 | Putting an instruction keeps layout and labels. |
| `CodeLayout.EmitLoadKeepsOpen` | webkit/JavaScriptCore/assembler/AssemblerBufferWithConstantPool.h:193-214 | Putting a load keeps layout and labels. |
| `CodeLayout.QueueLoadKeepsUnshared` | webkit/JavaScriptCore/assembler/AssemblerBufferWithConstantPool.h:197-211 | The reuse scan never lets another load share the entry of a unique constant. |
| `CodeLayout.LinkChangesOnly` | webkit/JavaScriptCore/assembler/ARMAssembler.h:685-689 | linkJump writes the slot of its own jump, pending or flushed; every other load sees the constant it saw. |
| `CodeLayout.LinkKeepsLaid` | webkit/JavaScriptCore/assembler/ARMAssembler.h:685-689 | Linking keeps the layout and every label. |
| `CodeLinking.PutInsnKeepsValid` | webkit/JavaScriptCore/assembler/ARMAssembler.h:229-233 | Emitting an instruction keeps the jump list consistent and all labels. |
| `CodeLinking.PutLoadKeepsValid` | webkit/JavaScriptCore/assembler/ARMAssembler.h:424-432 | Emitting a pool load does. |
| `CodeLinking.PutJumpKeepsValid` | webkit/JavaScriptCore/assembler/ARMAssembler.h:622-629 | jmp() appends a unique, unlinked load to pc, and keeps all labels. |
| `CodeLinking.LinkJumpKeepsValid` | webkit/JavaScriptCore/assembler/ARMAssembler.h:685-689 | Linking any recorded jump to any label, any number of times, keeps everything consistent. |
| `CodeLinking.ReserveKeepsValid` | webkit/JavaScriptCore/assembler/AssemblerBufferWithConstantPool.h:113-129 | So do the reservations and alignment tests, flush or not. |
| `AssemblerRuns.LabelIsNext` | webkit/JavaScriptCore/assembler/ARMAssembler.h:609-612 | The offset label() returns is where the next instruction or load is put. |
| `AssemblerRuns.JumpSourceIsLoad` | webkit/JavaScriptCore/assembler/ARMAssembler.h:622-629 | The offset jmp() returns is where its load is put. |
| `AssemblerRuns.Placement` | webkit/JavaScriptCore/assembler/AssemblerBufferWithConstantPool.h:163-214 | Where each call puts its word, and where its label is: at the end of the code, behind the flush its own test asks for. |
| `AssemblerRuns.CallReturnsBehindLoad` | webkit/JavaScriptCore/assembler/MacroAssemblerARM.h:660-664 | No pool comes between mov lr, pc and the load behind it, so lr is getCallReturnOffset of the call, and execution from there reaches the next operation. |
| `AssemblerRuns.CallIsAlways` | webkit/JavaScriptCore/assembler/MacroAssemblerARM.h:660-664 | A call appends mov lr, pc and a load of the pc that is always executed and has its constant to itself, recorded as a jump to stay in the pool. |
| `FlushWindows.SizeWindow` | webkit/JavaScriptCore/assembler/AssemblerBufferWithConstantPool.h:176-180 | After size() neither an instruction nor a load flushes. |
| `FlushWindows.CallWindow` | webkit/JavaScriptCore/assembler/MacroAssemblerARM.h:865-870 | After ensureSpace(8, 4) an instruction and a load behind it do not flush. |
| `FlushWindows.AlignWindow` | webkit/JavaScriptCore/assembler/AssemblerBufferWithConstantPool.h:125-129 | After isAligned(n) an instruction does not flush, and for n of 16 or more size() does not either. |
| `FlushWindows.ReservationKeepsTogether` | webkit/JavaScriptCore/jit/JITInlineMethods.h:116-136 | A reservation of the JIT, so many bytes of instructions and so many constants, with labels or without: all that fits stays together in a release build if and only if the counters behind ensureSpace leave the distance that the worst order needs. |
| `FlushWindows.TornWindow` | webkit/JavaScriptCore/jit/JITInlineMethods.h:116-136 | With labels, the same told from the counters before the call: something that fits is torn exactly if the distance is below the bytes of instructions plus 24, while ensureSpace flushes only below those bytes plus the number of constants, the last delta and 8. |
| `FlushWindows.DebugReservationKeepsTogether` | webkit/JavaScriptCore/jit/JITInlineMethods.h:119-134 | What a debug build reserves in addition is enough for the labels whenever a constant is pending. |
| `FlushWindows.BytesKeepTogether` | webkit/JavaScriptCore/assembler/AssemblerBufferWithConstantPool.h:119-123 | Given the bytes of the constants, ensureSpace keeps all that fits and has no labels together whenever a constant is pending behind it, else exactly if the distance left is enough. |
| `FlushWindows.RoomIsExact` | webkit/JavaScriptCore/assembler/AssemblerBufferWithConstantPool.h:287-303 | The condition behind these: in any state, exactly when every sequence of at most so many words and constants is put without a flush. |
| `FlushWindows.TestsInNumbers` | webkit/JavaScriptCore/assembler/AssemblerBufferWithConstantPool.h:287-303 | The two flush tests in numbers, for any reservation. |
| `FlushWindows.CallTestsLikeLabel` | webkit/JavaScriptCore/assembler/MacroAssemblerARM.h:865-870 | The reservation in prepareCall is the test a label makes. |
| `FlushWindows.ReservationTornApart` | webkit/JavaScriptCore/assembler/AssemblerBufferWithConstantPool.h:119-123 | After plain instructions only, ensureSpace(8, 4) does nothing, and a sequence that fits it can be torn apart exactly if there were 509 or more of them. |
| `JitSequences.SequenceTorn` | webkit/JavaScriptCore/jit/JIT.h:494-512 | For each of the sequences the JIT reserves for, and both representations of values: in a release build it is torn exactly if the distance is below what the sequence needs and ensureSpace does not flush. |
| `JitSequences.TornWhilePending` | webkit/JavaScriptCore/jit/JIT.h:674-692 | With a constant pending, that is a method check at distance 56 behind an instruction, and a get_by_id at the one or two distances where the label behind its last word flushes; no other. |
| `JitSequences.SequenceFits` | webkit/JavaScriptCore/jit/JITInlineMethods.h:137-143 | Each sequence has as many bytes and constants as are reserved for it. |
| `JitSequences.PatchOffsets` | webkit/JavaScriptCore/jit/JIT.h:462-492 | The labels and jumps of each sequence stand at the distances the JIT patches at. |
| `JitSequences.EnoughIsExact` | webkit/JavaScriptCore/assembler/AssemblerBufferWithConstantPool.h:287-303 | Whether a sequence of unshared constants is interrupted is decided by the counters alone. |
| `JitSequences.MethodCheckTorn` | webkit/JavaScriptCore/jit/JITPropertyAccess.cpp:1248-1257 | In a method check that is torn with a constant pending, 32 bytes behind the first label there is the pool's barrier, a branch, in place of the load that is to be patched. |
| `JitSequences.MethodCheckMissed` | webkit/JavaScriptCore/jit/JITPropertyAccess.cpp:1248-1257 | Behind one load and n plain instructions, n up to 507, a method check is torn exactly for n = 497. |
| `AssemblerRuns.AlignProgress` | webkit/JavaScriptCore/assembler/ARMAssembler.h:614-620 | One round of the padding loop, for any alignment, shrinks the pool or puts one nop without a flush. |
| `AssemblerRuns.AlignRound` | webkit/JavaScriptCore/assembler/ARMAssembler.h:614-620 | The loop's measure falls: pool first, then the distance to a boundary at which the mask test passes. |
| `AssemblerRuns.AlignedLabel` | webkit/JavaScriptCore/assembler/ARMAssembler.h:614-620 | For every power of two but 8 the returned label is aligned; for every alignment from 16 on it passes the mask test, since taking it does not flush. |
| `AssemblerRuns.AlignedTo8` | webkit/JavaScriptCore/assembler/ARMAssembler.h:614-620 | For 8 it is not if and only if, before the call, an odd number of constants is pending and the distance left behind the padding lies in a window of four to eight bytes. |
| `AssemblerRuns.AlignmentMissed` | webkit/JavaScriptCore/assembler/ARMAssembler.h:614-620 | Behind one load and n plain instructions, n up to 507, align(8) misses the boundary exactly for n from 506 on. |
| `Alignment.MaskTestIsExact` | webkit/JavaScriptCore/assembler/AssemblerBuffer.h:63-66 | The mask test of isAligned is the test of the remainder for all sizes if and only if the alignment is a power of two. |
| `Alignment.PassesAtPower` | webkit/JavaScriptCore/assembler/AssemblerBuffer.h:63-66 | Every alignment passes it at the multiples of the next power of two. |
| `AssemblerRuns.CommandKeepsSound` | webkit/JavaScriptCore/assembler/ARMAssembler.h:594-629 | Every call of the assembler keeps the state valid and all labels handed out. |
| `ConstantPoolBuffer.AssemblerBufferWithConstantPool.constructor` | webkit/JavaScriptCore/assembler/AssemblerBufferWithConstantPool.h:97-105 | An empty buffer with the full distance. |
| `ConstantPoolBuffer.AssemblerBufferWithConstantPool.PutInt` | webkit/JavaScriptCore/assembler/AssemblerBufferWithConstantPool.h:163-168 | The fields move by the function PutInt. |
| `ConstantPoolBuffer.AssemblerBufferWithConstantPool.PutIntWithConstantInt` | webkit/JavaScriptCore/assembler/AssemblerBufferWithConstantPool.h:193-214 | The fields move by the function PutIntWithConstantInt. |
| `ConstantPoolBuffer.AssemblerBufferWithConstantPool.FindReusableEntry` | webkit/JavaScriptCore/assembler/AssemblerBufferWithConstantPool.h:198-205 | The loop finds the first reusable entry that holds the constant. |
| `ConstantPoolBuffer.AssemblerBufferWithConstantPool.FlushConstantPool` | webkit/JavaScriptCore/assembler/AssemblerBufferWithConstantPool.h:251-285 | Emitting and patching in place gives the flushed value. |
| `ConstantPoolBuffer.AssemblerBufferWithConstantPool.EmitPool` | webkit/JavaScriptCore/assembler/AssemblerBufferWithConstantPool.h:255-274 | Barrier, padding and pool are appended; the result is the pool's aligned offset. |
| `ConstantPoolBuffer.AssemblerBufferWithConstantPool.PatchLoads` | webkit/JavaScriptCore/assembler/AssemblerBufferWithConstantPool.h:276-280 | The loop patches exactly the pending loads. |
| `ConstantPoolBuffer.AssemblerBufferWithConstantPool.FlushWithoutBarrier` | webkit/JavaScriptCore/assembler/AssemblerBufferWithConstantPool.h:217-222 | Flushes without a barrier if forced or the pool is more than 60 percent full. |
| `ConstantPoolBuffer.AssemblerBufferWithConstantPool.FlushIfNoSpaceForInsn` | webkit/JavaScriptCore/assembler/AssemblerBufferWithConstantPool.h:287-294 | The test before an instruction. |
| `ConstantPoolBuffer.AssemblerBufferWithConstantPool.FlushIfNoSpaceFor` | webkit/JavaScriptCore/assembler/AssemblerBufferWithConstantPool.h:296-303 | The test before an instruction with a constant. |
| `ConstantPoolBuffer.AssemblerBufferWithConstantPool.CorrectDeltas` | webkit/JavaScriptCore/assembler/AssemblerBufferWithConstantPool.h:235-241 | The charge of an instruction. |
| `ConstantPoolBuffer.AssemblerBufferWithConstantPool.CorrectDeltasWithConst` | webkit/JavaScriptCore/assembler/AssemblerBufferWithConstantPool.h:243-249 | The charge of an instruction with a constant. |
| `ConstantPoolBuffer.AssemblerBufferWithConstantPool.Size` | webkit/JavaScriptCore/assembler/AssemblerBufferWithConstantPool.h:176-180 | Flushes if the largest put would not fit, then gives the size. |
| `ConstantPoolBuffer.AssemblerBufferWithConstantPool.EnsureSpaceForInsn` | webkit/JavaScriptCore/assembler/AssemblerBufferWithConstantPool.h:113-117 | ensureSpace(space): flushes as the one-argument test says. |
| `ConstantPoolBuffer.AssemblerBufferWithConstantPool.EnsureSpace` | webkit/JavaScriptCore/assembler/AssemblerBufferWithConstantPool.h:119-123 | ensureSpace(insn, const): flushes as the two-argument test says. |
| `ConstantPoolBuffer.AssemblerBufferWithConstantPool.IsAligned` | webkit/JavaScriptCore/assembler/AssemblerBufferWithConstantPool.h:125-129 | Flushes if that many bytes would not fit, then makes the mask test, for any alignment. |
| `AssemblerBuffers.AssemblerBuffer.IsAligned` | webkit/JavaScriptCore/assembler/AssemblerBuffer.h:63-66 | The mask test of the byte buffer, for any alignment. |
| `ArmAssembler.ARMAssembler.EmitInst` | webkit/JavaScriptCore/assembler/ARMAssembler.h:229-233 | The assembler object moves by the function PutInsn. |
| `ArmAssembler.ARMAssembler.LdrImm` | webkit/JavaScriptCore/assembler/ARMAssembler.h:424-427 | Appends a load whose constant may be shared. |
| `ArmAssembler.ARMAssembler.LdrUnImm` | webkit/JavaScriptCore/assembler/ARMAssembler.h:429-432 | Appends a load whose constant is its own. |
| `ArmAssembler.ARMAssembler.MakeLabel` | webkit/JavaScriptCore/assembler/ARMAssembler.h:609-612 | The result is the offset of the next operation. |
| `ArmAssembler.ARMAssembler.Align` | webkit/JavaScriptCore/assembler/ARMAssembler.h:614-620 | The loop ends although a pool may be placed in it, and gives the label behind the padding. |
| `ArmAssembler.ARMAssembler.Jmp` | webkit/JavaScriptCore/assembler/ARMAssembler.h:622-629 | Records the offset of the load with the pool flag in bit 0, and returns that offset. |
| `ArmAssembler.ARMAssembler.Call` | webkit/JavaScriptCore/assembler/MacroAssemblerARM.h:660-664 | prepareCall and a jump kept in the pool; the result is the offset of the load. |
| `ArmAssembler.ARMAssembler.LinkJump` | webkit/JavaScriptCore/assembler/ARMAssembler.h:685-689 | Bit 0 of the load selects pool array or code, and the write is that of the function LinkJump. |
| `ArmAssembler.LinkFacts` | webkit/JavaScriptCore/assembler/ARMAssembler.cpp:37-50 | Where getLdrImmAddress finds the constant of a recorded jump: the tagged pool entry, or the pc-relative slot. |
| `ArmAssembler.ARMAssembler.ExecutableCopy` | webkit/JavaScriptCore/assembler/ARMAssembler.cpp:380-401 | The loop over the jump list computes the resolved code, and the buffer ends flushed and 8-aligned. |
| `ArmAssembler.ResolveJumpInPlace` | webkit/JavaScriptCore/assembler/ARMAssembler.cpp:389-397 | One round: an unlinked jump is left alone, a linked one goes to linkBranch. |
| `ArmAssembler.LinkBranchInPlace` | webkit/JavaScriptCore/assembler/ARMAssembler.cpp:52-68 | linkBranch on the copied words. |
| `ArmImmediate.RorIsTurns` | webkit/JavaScriptCore/assembler/ARMAssembler.cpp:87-122 | Rotating by two bits at a time is the rotation of DDI 0406, section A5.2.4. |
| `ArmImmediate.GetOp2` | webkit/JavaScriptCore/assembler/ARMAssembler.cpp:87-122 | A returned operand decodes to the value, and INVALID_IMM is returned if and only if no 8-bit value rotated right by an even amount is the value, wrapping windows included. |
| `ArmImmediate.WindowIsExact` | webkit/JavaScriptCore/assembler/ARMAssembler.cpp:92-119 | A window found decodes to the value it was found in. |
| `ArmImmediate.WindowIsFound` | webkit/JavaScriptCore/assembler/ARMAssembler.cpp:92-119 | Every encodable value ends with the byte on top. |
| `ArmImmediate.SearchZeroByte` | webkit/JavaScriptCore/assembler/ARMAssembler.cpp:132-160 | Both loops end; a hit is the value rotated left with a zero low byte, and the rotation recorded undoes it; a miss means that no rotation by an even amount has one. |
| `ArmImmediate.TwoBytesLeaveOne` | webkit/JavaScriptCore/assembler/ARMAssembler.cpp:124-166 | A value of two rotated bytes has a zero byte at an even rotation, so a miss loses nothing. |
| `ArmImmediate.PairSplits` | webkit/JavaScriptCore/assembler/ARMAssembler.cpp:167-220 | Wherever the zero byte was found, the greedy split of the rest finds the two operands if there are any. |
| `ArmImmediate.SplitFull` | webkit/JavaScriptCore/assembler/ARMAssembler.cpp:167-190 | Two bytes split off below a full top byte make up the value again. |
| `ArmImmediate.SplitMoved` | webkit/JavaScriptCore/assembler/ARMAssembler.cpp:191-220 | The same when the top byte has leading zeros. |
| `ArmImmediate.SplitInTwo` | webkit/JavaScriptCore/assembler/ARMAssembler.cpp:124-220 | The search succeeds if and only if the value is made of two operands, and then finds such two. |
| `ArmAssembler.ARMAssembler.GenInt` | webkit/JavaScriptCore/assembler/ARMAssembler.cpp:124-231 | It returns 1 if and only if the number is made of two operands, and has then emitted mov and orr for the value, or mvn and bic for its complement; else nothing. |
| `ArmAssembler.ARMAssembler.EncodeComplexImm` | webkit/JavaScriptCore/assembler/ARMAssembler.cpp:273-296 | Two instructions exactly if the value is a pair, two for the complement exactly if only that is one, else a pool load. |
| `ArmAssembler.ARMAssembler.MoveImm` | webkit/JavaScriptCore/assembler/ARMAssembler.cpp:253-271 | One mov exactly if the value is encodable, one mvn exactly if only its complement is, else what encodeComplexImm emits. |
| `ArmAssembler.ARMAssembler.GetImm` | webkit/JavaScriptCore/assembler/ARMAssembler.cpp:233-251 | Read by bits 26 and 25, as its callers do, the result is an immediate that is the value, an immediate that is its complement, or the register the value was moved to by what encodeComplexImm emits, decided in this order; nothing is emitted in the first two cases. |
| `ArmMove.MoveFields` | webkit/JavaScriptCore/assembler/ARMAssembler.h:229-233 | The emitted word decodes to its opcode, registers and operand, and is no branch and no literal load. |
| `ArmMove.MovesArePlain` | webkit/JavaScriptCore/assembler/ARMAssembler.cpp:253-296 | Every expansion is one or two instructions, none of them a branch or a load other than the pool load. |
| `ArmMove.MovesArrive` | webkit/JavaScriptCore/assembler/ARMAssembler.cpp:253-296 | Whichever expansion was chosen, running it leaves the value in the register and changes no other. |
| `ArmMove.MovesAreShort` | webkit/JavaScriptCore/assembler/ARMAssembler.cpp:253-296 | One instruction if the value or its complement is encodable, else two if either is a pair, else a pool load; the value itself is tried first each time, as the opcodes of the words say. |
| `ArmMove.MovedValueArrives` | webkit/JavaScriptCore/assembler/ARMAssembler.cpp:253-296 | The same in the executable copy, pools and barriers in between included. |
| `ArmMultiply.SignTellsOverflow` | webkit/JavaScriptCore/assembler/MacroAssemblerARM.h:490-491 | The high word differs from the sign of the low word if and only if the signed product does not fit in 32 bits; if it fits, the low word is the product. |
| `ArmMultiply.MultiplyWords` | webkit/JavaScriptCore/assembler/MacroAssemblerARM.h:484-492 | The words decode to the intended registers, and rm is neither result register, also for src == dest. |
| `ArmMultiply.MulIsPlain` | webkit/JavaScriptCore/assembler/MacroAssemblerARM.h:135-148 | None of the words of mul32 and mull32 is a branch or a literal load. |
| `ArmMultiply.MultiplyAndCompare` | webkit/JavaScriptCore/assembler/MacroAssemblerARM.h:490-491 | smull and cmp leave the product and the Z flag clear exactly on overflow. |
| `ArmMultiply.MultiplyLow` | webkit/JavaScriptCore/assembler/MacroAssemblerARM.h:135-148 | muls leaves the low word of the product, with N and Z telling its sign and whether it is zero. |
| `ArmMultiply.MultiplicationBranches` | webkit/JavaScriptCore/assembler/MacroAssemblerARM.h:494-504 | For each condition the branch is taken if and only if the product is as wanted, for Overflow exactly if it does not fit, and dest holds it modulo 2^32. |
| `ArmMultiply.ImmediateBranches` | webkit/JavaScriptCore/assembler/MacroAssemblerARM.h:506-517 | The same for an immediate factor moved to S0 first. |
| `ArmMultiply.CopyMultiplies` | webkit/JavaScriptCore/assembler/MacroAssemblerARM.h:494-504 | The same in the executable copy, pools and barriers in between included: it goes on at the jump's label or behind the jump. |
| `ArmMultiply.CopyMultipliesImmediate` | webkit/JavaScriptCore/assembler/MacroAssemblerARM.h:506-517 | And with the immediate factor. |
| `ArmMultiply.MacroAssemblerARM.Mull32` | webkit/JavaScriptCore/assembler/MacroAssemblerARM.h:484-492 | Emits the two or three instructions. |
| `ArmMultiply.MacroAssemblerARM.Mul32` | webkit/JavaScriptCore/assembler/MacroAssemblerARM.h:135-142 | Emits one or two. |
| `ArmMultiply.FreshJumpFields` | webkit/JavaScriptCore/assembler/MacroAssemblerARM.h:503-503 | The jump at the end is a load of the pc under NE for Overflow and NonZero, MI for Signed, EQ for Zero. |
| `ArmMultiply.MacroAssemblerARM.BranchMul32` | webkit/JavaScriptCore/assembler/MacroAssemblerARM.h:494-504 | Emits the multiplication its condition asks for, and a jump under the condition field that belongs to it. |
| `ArmMultiply.MacroAssemblerARM.BranchMul32Imm` | webkit/JavaScriptCore/assembler/MacroAssemblerARM.h:506-517 | Emits the move, the multiplication and the jump. |
| `ThumbImmediate.CountLeadingZeros` | webkit/JavaScriptCore/assembler/ARMv7Assembler.h:210-222 | The result is the true number of leading zeros, 32 for zero. |
| `ThumbImmediate.CountLeadingZerosPartial` | webkit/JavaScriptCore/assembler/ARMv7Assembler.h:202-208 | Of 2n bits left of the value n are left, the highest bit among them, and the zeros above are counted. |
| `ThumbImmediate.MakeEncodedImm` | webkit/JavaScriptCore/assembler/ARMv7Assembler.h:248-299 | A result is valid if and only if the value has an encoding; it decodes to the value if and only if the value is not 0xXY00XY00 with XY not zero, for which byte 0 is stored. |
| `ThumbImmediate.NotRotated` | webkit/JavaScriptCore/assembler/ARMv7Assembler.h:264-275 | A rotated encoding exists only for eight bits in a row. |
| `ThumbImmediate.OddBytesStored` | webkit/JavaScriptCore/assembler/ARMv7Assembler.h:291-295 | For the third pattern the byte stored is zero and the encoding of the right byte would have been the value. |
| `ThumbJumps.BranchDecodes` | webkit/JavaScriptCore/assembler/ARMv7Assembler.h:1706-1723 | B.W, encoding T4: the offset written is the offset decoded, the two inverted bits included. |
| `ThumbJumps.NopsAndBranch` | webkit/JavaScriptCore/assembler/ARMv7Assembler.h:1719-1723 | The near form is accepted again and runs as one jump to the target. |
| `ThumbJumps.RecognisersDecode` | webkit/JavaScriptCore/assembler/ARMv7Assembler.h:1659-1693 | Each of the recognisers knows exactly the instruction it is named after. |
| `ThumbJumps.MovesAndBX` | webkit/JavaScriptCore/assembler/ARMv7Assembler.h:1725-1731 | So does the far form, staying in Thumb state. |
| `ThumbJumps.LinkedSlotJumps` | webkit/JavaScriptCore/assembler/ARMv7Assembler.h:1695-1733 | Either form: three instructions, the jump last, only r12 changed; predicated by a condition that fails, all three fall through. |
| `ThumbJumps.LinkJumpAbsolute` | webkit/JavaScriptCore/assembler/ARMv7Assembler.h:1695-1733 | Writes the five halfwords of its slot and nothing else. |
| `ThumbJumps.Relink` | webkit/JavaScriptCore/assembler/ARMv7Assembler.h:1566-1574 | After any number of relinks the slot jumps to the last target and can be linked again. |
| `ThumbJumps.FreshSlotAccepted` | webkit/JavaScriptCore/assembler/MacroAssemblerARMv7.h:1026-1037 | The slot makeJump and makeBranch emit can be linked. |
| `ThumbJumps.FreshSlotDecodes` | webkit/JavaScriptCore/assembler/MacroAssemblerARMv7.h:1026-1030 | It decodes to movw and movt of zero to ip and bx ip. |
| `ThumbJumps.SlotTakesTenBytes` | webkit/JavaScriptCore/assembler/ARMv7Assembler.h:1505-1519 | The address of a halfword of the copy, in bytes. |
| `ThumbJumps.LinkNext` | webkit/JavaScriptCore/assembler/ARMv7Assembler.h:1509-1514 | Linking one slot leaves the others, and everything outside slots, as they were. |
| `ThumbJumps.ARMv7Assembler.Emit` | webkit/JavaScriptCore/assembler/ARMv7Assembler.h:1743-1760 | Other code is appended; every jump emitted so far stays a slot of its own. |
| `ThumbJumps.ARMv7Assembler.MakeJump` | webkit/JavaScriptCore/assembler/MacroAssemblerARMv7.h:1026-1030 | Appends a slot that can be linked, apart from all others; the result is where it ends. |
| `ThumbJumps.ARMv7Assembler.MakeBranch` | webkit/JavaScriptCore/assembler/MacroAssemblerARMv7.h:1032-1037 | The same behind an IT. |
| `ThumbJumps.ARMv7Assembler.LinkJump` | webkit/JavaScriptCore/assembler/ARMv7Assembler.h:1535-1540 | A record for an emitted jump is added to the list. |
| `ThumbJumps.ARMv7Assembler.ExecutableCopy` | webkit/JavaScriptCore/assembler/ARMv7Assembler.h:1505-1519 | Every jump of the copy goes to the target it was last linked to, at the copy's address. |
| `X86Operands.RoundTrip` | webkit/JavaScriptCore/assembler/X86Assembler.h:1637-1847 | For all registers, legal indices, scales and offsets, in 32-bit and 64-bit mode, decoding gives the opcode and the operand back, a register in the opcode byte included, and consumes exactly the bytes emitted. |
| `X86Operands.PrefixWhenNeeded` | webkit/JavaScriptCore/assembler/X86Assembler.h:1910-1940 | A REX prefix is planted exactly for 64-bit operations, registers from r8 on and byte registers from spl on, told from the decoded operand. |
| `X86Operands.ForcedCanBePatched` | webkit/JavaScriptCore/assembler/X86Assembler.h:2001-2015 | With the forced 32-bit form any four bytes in place of the displacement decode to the same operand with that displacement. |
| `X86Operands.NoShorterOperand` | webkit/JavaScriptCore/assembler/X86Assembler.h:1967-2034 | In all other forms no shorter bytes decode to the operand. |
| `X86Operands.OperandRoundTrip` | webkit/JavaScriptCore/assembler/X86Assembler.h:1949-2042 | ModRM, SIB and displacement decode to the operand they were planted for. |
| `X86Operands.BasedRoundTrip` | webkit/JavaScriptCore/assembler/X86Assembler.h:1967-2015 | Base and offset, with the SIB byte for esp and r12 and the displacement for ebp and r13. |
| `X86Operands.IndexedRoundTrip` | webkit/JavaScriptCore/assembler/X86Assembler.h:2017-2034 | Base, index, scale and offset. |
| `X86Operands.RexFields` | webkit/JavaScriptCore/assembler/X86Assembler.h:1910-1914 | The REX prefix carries W and the high bits of the three registers. |
| `X86Operands.NoRexNoHighRegister` | webkit/JavaScriptCore/assembler/X86Assembler.h:1929-1933 | Without a REX prefix no register needs one. |
| `X86Operands.LowBytesNamed` | webkit/JavaScriptCore/assembler/X86Assembler.h:1823-1847 | In 64-bit mode the byte formatters always name the low byte of their registers. |
| `X86Operands.HighBytesNamed` | webkit/JavaScriptCore/assembler/X86Assembler.h:1935-1940 | In 32-bit mode each of them does so exactly for eax to ebx. |
| `AssemblerBuffers.SignedRoundTrip` | webkit/JavaScriptCore/assembler/AssemblerBuffer.h:96-108 | A number stored in n bytes reads back. |
| `AssemblerBuffers.SignedTruncates` | webkit/JavaScriptCore/assembler/AssemblerBuffer.h:68-108 | A number too wide reads back short of its high part only. |
| `AssemblerBuffers.AssemblerBuffer.EnsureSpace` | webkit/JavaScriptCore/assembler/AssemblerBuffer.h:57-61 | The buffer grows once, by half, exactly if the space is missing, and keeps what was put; up to 128 bytes that is enough. |
| `AssemblerBuffers.AssemblerBuffer.Grow` | webkit/JavaScriptCore/assembler/AssemblerBuffer.h:152-161 | The new capacity, the contents unchanged. |
| `AssemblerBuffers.AssemblerBuffer.PutByteUnchecked` | webkit/JavaScriptCore/assembler/AssemblerBuffer.h:68-73 | Appends a byte where four bytes were free. |
| `AssemblerBuffers.AssemblerBuffer.PutIntUnchecked` | webkit/JavaScriptCore/assembler/AssemblerBuffer.h:96-101 | Appends four bytes. |
| `AssemblerBuffers.AssemblerBuffer.PutInt64Unchecked` | webkit/JavaScriptCore/assembler/AssemblerBuffer.h:103-108 | Appends eight. |
| `AssemblerBuffers.AssemblerBuffer.PutByte` | webkit/JavaScriptCore/assembler/AssemblerBuffer.h:75-80 | Grows if needed, then appends a byte. |
| `AssemblerBuffers.AssemblerBuffer.PutShort` | webkit/JavaScriptCore/assembler/AssemblerBuffer.h:89-94 | The same for two bytes. |
| `AssemblerBuffers.AssemblerBuffer.PutInt` | webkit/JavaScriptCore/assembler/AssemblerBuffer.h:110-115 | The same for four. |
| `AssemblerBuffers.AssemblerBuffer.Append` | webkit/JavaScriptCore/assembler/AssemblerBuffer.h:143-150 | Appends any number of bytes after one growth at most. |
| `AssemblerBuffers.AssemblerBuffer.SetInt32` | webkit/JavaScriptCore/assembler/X86Assembler.h:1595-1598 | Four bytes in front of an address are overwritten, nothing else. |
| `X86Formatter.EncodedLength` | webkit/JavaScriptCore/assembler/X86Assembler.h:1610-1610 | An encoded instruction has at most nine bytes, three without a ModRM byte. |
| `X86Formatter.ImmediateReadsBack` | webkit/JavaScriptCore/assembler/X86Assembler.h:1854-1872 | An immediate stands behind the decoded length of its instruction, in one, two, four or eight bytes, and reads back as the number given, or what of it fits. |
| `X86Formatter.X86InstructionFormatter.Format` | webkit/JavaScriptCore/assembler/X86Assembler.h:1637-1847 | The formatters append exactly the encoding, and ensureSpace(16) leaves what it did not use. |
| `X86Formatter.X86InstructionFormatter.Emit` | webkit/JavaScriptCore/assembler/X86Assembler.h:1849-1878 | An instruction and its immediate meet every assertion of the unchecked puts. |
| `X86Formatter.X86InstructionFormatter.EmitRex` | webkit/JavaScriptCore/assembler/X86Assembler.h:1910-1940 | The REX byte of each kind of formatter. |
| `X86Formatter.X86InstructionFormatter.MemoryModRM` | webkit/JavaScriptCore/assembler/X86Assembler.h:1967-2015 | The branches on base and offset. |
| `X86Formatter.X86InstructionFormatter.MemoryModRMIndexed` | webkit/JavaScriptCore/assembler/X86Assembler.h:2017-2034 | The branches with an index. |
| `X86Linking.LinkedGoesTo` | webkit/JavaScriptCore/assembler/X86Assembler.h:1600-1606 | A linked rel32 reaches its label wherever the code is placed. |
| `X86Linking.LinkKeepsJumps` | webkit/JavaScriptCore/assembler/X86Assembler.h:1486-1493 | Linking one jump leaves every other jump and every other byte as they were. |
| `X86Linking.X86Assembler.Emit` | webkit/JavaScriptCore/assembler/X86Assembler.h:1637-1878 | More code, and buffer growth, keep every jump's destination. |
| `X86Linking.X86Assembler.Jump` | webkit/JavaScriptCore/assembler/X86Assembler.h:1186-1190 | An opcode and a zero rel32; the result is the offset behind it. |
| `X86Linking.X86Assembler.LinkJump` | webkit/JavaScriptCore/assembler/X86Assembler.h:1486-1493 | The jump goes to the label, the others where they went. |
| `X86Linking.X86Assembler.ExecutableCopy` | webkit/JavaScriptCore/assembler/X86Assembler.h:1581-1586 | In the copy every jump reaches its target at the copy's address. |
| `CallLinks.LinksAreSafe` | webkit/JavaScriptCore/bytecode/CodeBlock.h:305-322 | A live call site calls a block exactly when it sits in that block's list at its recorded position, and then nowhere else; no list holds a site of a dead block, no live site calls or still compares with a dead one, and what a site compares with is what it then calls. |
| `CallLinks.SwapRemoveLosesOne` | webkit/JavaScriptCore/bytecode/CodeBlock.h:312-322 | Swap-removal loses the removed caller and nothing else. |
| `CallLinks.CodeBlock.AddCaller` | webkit/JavaScriptCore/bytecode/CodeBlock.h:305-310 | The caller is appended and knows its callee and position. |
| `CallLinks.CodeBlock.RemoveCaller` | webkit/JavaScriptCore/bytecode/CodeBlock.h:312-322 | The last caller takes the free place and learns its position; no other position changes. |
| `CallLinks.CodeBlock.UnlinkCallers` | webkit/JavaScriptCore/bytecode/CodeBlock.cpp:1342-1351 | Every caller, whose own block has to be alive, is repatched and unlinked. |
| `CallLinks.LinkCall` | webkit/JavaScriptCore/jit/JIT.cpp:593-611 | A call is linked exactly if the callee is native or the argument count matches, and recorded with the callee's block if there is one; either way the site goes to the virtual-call stub from then on. |
| `CallLinks.LazyLinkCall` | webkit/JavaScriptCore/jit/JITStubs.cpp:1676-1694 | The first call of a site only marks it, the second links it. |
| `CallLinks.UnlinkCall` | webkit/JavaScriptCore/jit/JIT.cpp:580-591 | The check in the caller's code matches nothing any more. |
| `CallLinks.DetachSites` | webkit/JavaScriptCore/bytecode/CodeBlock.cpp:1315-1319 | The destructor's loop takes each of the block's own sites out of its callee's list, self-calls included. |
| `CallLinks.World.Compile` | webkit/JavaScriptCore/jit/JIT.cpp:543-551 | A new block's call sites are its own, and new. |
| `CallLinks.World.Destroy` | webkit/JavaScriptCore/bytecode/CodeBlock.cpp:1315-1332 | Destroying a block unlinks exactly the calls to it, keeps the state of every other site, and keeps the invariant over all blocks. |
| `CallLinks.World.Unlink` | webkit/JavaScriptCore/bytecode/CodeBlock.cpp:1342-1351 | Unlinking a block's callers does the same and keeps the block. |
| `CallLinks.World.FreeNative` | webkit/JavaScriptCore/runtime/JSFunction.cpp:82-97 | The destructor of a native function changes no site. |
| `CallLinks.World.Call` | webkit/JavaScriptCore/jit/JITStubs.cpp:1676-1694 | A slow call at any site, possibly to its own block, moves the site one step and keeps the invariant; whenever linkCall is reached its assertion that the site is not linked holds. |
| `CallLinks.EveryRunSound` | webkit/JavaScriptCore/bytecode/CodeBlock.h:103-129 | In the reference model, which has only the state of each site, links always join live sites and live blocks. |
| `CallLinks.LinkedOnce` | webkit/JavaScriptCore/jit/JIT.cpp:609-610 | In every run a site is linked at most once, and only a link to a block is ever taken back. |
| `CallHistory.LinkedExactly` | webkit/JavaScriptCore/jit/JIT.cpp:580-611 | In every run a live site compares with a block or native function if and only if its second call was of it, with as many arguments as the block has parameters, and the block was neither unlinked nor destroyed since; told from the commands alone. |
| `CallHistory.SiteCalled` | webkit/JavaScriptCore/jit/JITStubs.cpp:1676-1694 | A site is new, marked or left to the virtual-call stub as it was called never, once or more often. |
| `CallHistory.NativeLinkStays` | webkit/JavaScriptCore/jit/JIT.cpp:593-611 | In every run a live site compares with a native function if and only if its second call was of that function, whether or not the function has been freed since. |
| `CallLinks.Run` | webkit/JavaScriptCore/bytecode/CodeBlock.cpp:1315-1351 | For every interleaving of making, calling, unlinking, freeing and destroying, the objects agree with the reference model, site by site. |

## Left out

- Overflow of the C `int` sizes and distances: code is assumed to stay below 2^31 bytes, and below 2^32 at the address it is copied to (`Fits`, `MAX_CODE`).
- Byte, short and 64-bit puts and the unchecked puts of the constant-pool buffer, which the ARM assembler does not use for instructions; its byte capacity and growth, which are those of `AssemblerBuffers`.
- AssemblerRuns.EveryRunExecutes: asks that the words put as plain instructions are neither direct branches nor literal loads; the program emits those only as jumps, pool loads and barriers. `ArmMove.MovesArePlain` and `ArmMultiply.MulIsPlain` show it for the sequences treated here.
- Where ARM instructions other than literal loads and direct branches (bx, a load through a register) send the pc: `Semantics` decides it, and `ArmExecution` follows a run up to and including such an instruction and on from any label. Conditions on plain instructions are part of their meaning.
- dataTransfer32, baseIndexTransfer32, doubleTransfer and call32: their offsets beyond 20 bits pass a `getImm` result where a register number is meant, and the rest is one-line emitting.
- MacroAssemblerARM.h: all one-line operations other than the multiplications.
- repatchInt32, relinkCall and the other patching of finished ARM code, each a write to one slot as in `CodeCopy.WriteTouchesOnly`.
- movw and movt on ARM version 7 (`encodeComplexImm`, lines 278-285).
- ArmAssembler.ARMAssembler.Align: asks for a positive alignment; with 0 the mask is all ones and the loop does not end.
- X86Operands.RoundTrip: legacy prefixes, put in front of an instruction by prefix(), are not part of the bytes decoded; whether an opcode contains a register or has a ModRM byte behind it is given, not decoded.
- X86Linking: linking a finished copy to an absolute address outside the code, which asserts that the distance fits.
- Thumb-2: what the IT prefix itself does (offsets are counted in halfwords), calls (setInt32 on an existing pair of moves), and all other encodings.
- CallLinks: finding a site by its return address; the program's list growth and memory management. A call site is an object of its own here, while the program keeps it inside a vector that no longer grows once calls can be linked.
- Executable memory, its allocation and protection, and cache flushes: a copy goes to an arbitrary aligned address.
- VFP and SSE instructions, CPU feature detection, and the remaining one-line emitters.

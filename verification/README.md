# Run contexts of the multi-architecture UEFI emulator, verified in Dafny

The emulator driver lets native UEFI code and emulated x64 or AArch64 code call each other to any
depth. All activations on one guest CPU share one register file (the engine), so a nested run
snapshots the engine and puts it back; activations are pooled records on a linked list; native code
may long-jump over emulated frames and `gBS->Exit` unwinds an image from any depth, after which list,
counters, pools and engines have to be repaired. This project models that machinery and proves what
the rest of the firmware relies on.

Files, from the bottom up:

- `Words.dfy`, `Interrupts.dfy`, `Thunks.dfy`, `CpuContexts.dfy`: machine words and register files;
  critical sections and the hooked interrupt services; what the thunks do to registers and stack, as
  functions and as the methods of one guest CPU.
- `RunModel.dfy`: the shared state (list of contexts, engines, counters, free queues, interrupt state)
  as a value, and the operations of `Cpu.c` on it.
- `RunContexts.dfy`: the same operations on the linked records, proved to be those of `RunModel`.
- `Machine.dfy`: the run protocol as a step machine with a control stack of native stretches and
  activations; `ASSERT` failures are `Fault` outcomes. `Invariant.dfy` and `Preservation.dfy`: what every
  reachable state satisfies.
- `Theorems.dfy`, `Transparency.dfy`, `PrivateRegisters.dfy`, `StackIsolation.dfy`: the theorems about
  whole runs. `Limits.dfy`: runs that show where the promises stop. `Refinement.dfy`: repairs on the records and in
  the run machine agree.
- `Orphans.dfy`, `ObjectPool.dfy`, `Timeout.dfy`, `CallRecovery.dfy`, `ImageRegistry.dfy`: the algorithms around
  the core.

Lists of contexts are written oldest first, so the last element is `mTopContext`. Frames of the control
stack and their `at` snapshots, and the `started` mark of a context, are specification only.

Assumptions of the run machine: the default build (`MAU_ON_PRIVATE_STACK=NO`, `MAU_CHECK_ORPHAN_CONTEXTS=NO`,
timeouts on); the JIT may leave any register file behind; long jumps go to live native frames; an
event handler returns to what it interrupted and long-jumps neither past it nor, within itself, over runs
it started (events that interrupt native code are part of what that code may do); an image record is started
at most once, as the firmware's StartImage guarantees. The landing of a long jump or native return and
the opening of the repair section that follows are one step.

Where code and intent part, the code is modelled and the exact boundary is proved:

- `CriticalBegin` overwrites the apparent interrupt state on every begin (`Emulator.h:451`), so a nested section
  would lose it (`Interrupts.NestedBeginKeepsFlagIff`); sections are proved never to nest.
- Between `Cpu.c:1389` and `Cpu.c:1395` a context is counted but has not captured the engine, and between `Cpu.c:1413`
  and `Cpu.c:992` it is counted but has given it back; an event in either window starts its run from leftover registers instead of
  the initial state (`PrivateRegisters.StartsWhereIntendedIff`, and a run for each window in `Limits`).
- An image left by a long jump stays on the list until the next repair, and `CpuExitImage` accepts its handle
  although the jump buffer's frame is gone (`Limits.LeakedImageIsAccepted`); the theorems about exit ask for a live target, and
  `Transparency.ExitTargetLiveIff` says exactly when it is.
- The assertion at `Cpu.c:1654` fails exactly when a started image exits while no image is listed, which a driver's
  callback can reach (`Theorems.AssertionsFireIff`, `Limits.ExitAssertionCanFail`); no other assertion of the protocol can fail.
- Orphan detection charges every orphan to the new context's CPU (`Cpu.c:1330-1337`), which breaks counters and snapshot
  rule exactly when the CPUs differ, and orphans with a snapshot fail the assertion at `Cpu.c:1245` (`Orphans`).
- `ObjectAllocCreate` returns without freeing its context when the slot is smaller than the header (`ObjectAlloc.c:42-44`).
- A failing `SetMemoryAttributes` leaves the image registered (`Image.c:162-165`).

## Model

| member | source | states |
|---|---|---|
| Interrupts.InterruptControl.CriticalBegin | Drivers/Emulator/Emulator.h:439-454 | disables real interrupts, deepens the section and records the flag it found |
| Interrupts.InterruptControl.CriticalEnd | Drivers/Emulator/Emulator.h:456-471 | leaving the outermost section makes the apparent state real |
| Interrupts.InterruptControl.EnableInterrupt | Drivers/Emulator/EfiHooks.c:30-43 | changes what clients see, and the hardware only outside sections |
| Interrupts.InterruptControl.DisableInterrupt | Drivers/Emulator/EfiHooks.c:45-58 | changes what clients see, and the hardware only outside sections |
| Interrupts.InterruptControl.GetInterruptState | Drivers/Emulator/EfiHooks.c:60-77 | reports the apparent state inside sections and the real one outside; a null pointer is refused |
| Interrupts.VirtualisationRefinesFlag | Drivers/Emulator/EfiHooks.c:30-77 | over any run of un-nested sections and client calls, every answer is the one of a machine with a plain flag, sections run with interrupts off, and outside sections the hardware equals the flag |
| Interrupts.NestedBeginKeepsFlagIff | Drivers/Emulator/Emulator.h:450-453 | a nested begin keeps what clients see exactly when interrupts were apparently off |
| Interrupts.NestedSectionLosesEnabled | Drivers/Emulator/Emulator.h:439-471 | two nested sections around enabled interrupts leave them disabled |
| Thunks.MarshallingRoundTrip | Drivers/Emulator/Cpu.c:421-450 | native code called from the state EmuThunkPre built receives the very 16 arguments, on both guests, for every stack pointer with room |
| Thunks.CalleeReturnsToNative | Drivers/Emulator/Cpu.c:559-569 | a callee entered by EmuThunkPre finds the magic return address where its return looks for it, on top of the stack or in LR, and its ABI return and the post-thunk give back the stack pointer |
| Thunks.EntryKeepsConventionX64 | Drivers/Emulator/Cpu.c:538-570 | Microsoft x64 at entry: RCX, RDX, R8, R9, return address on top, home zone, stack arguments |
| Thunks.EntryKeepsConventionAArch64 | Drivers/Emulator/Cpu.c:421-450 | AAPCS64 at entry: X0 to X7, LR, stack arguments |
| Thunks.WrapperAndNativeAgree | Drivers/Emulator/Native.c:265-290 | wrapper and native path deliver the same 16 arguments from any state |
| Thunks.WrapperWritesOnlyHomeZone | Drivers/Emulator/Native.c:265-270 | the x64 wrapper path changes only the four home-zone words and no register |
| Thunks.NativeCallReturns | Drivers/Emulator/Native.c:292-297 | to emulated code a native call is a call that returned: return address popped, only the value register changed |
| Thunks.PostRestoresStackPointer | Drivers/Emulator/Cpu.c:572-614 | for a callee that follows the ABI the post-thunk hands back the stack pointer the pre-thunk found |
| Thunks.NestedRunStaysBelowRedZone | Drivers/Emulator/Cpu.c:1395-1404 | every cell a nested start changes lies in the frame right below the red zone |
| Thunks.RegisterHalves | Drivers/Emulator/Cpu.c:538-570 | the register files the run machine computes are those of the full thunks |
| CpuContexts.CpuContext.EmuThunkPre | Drivers/Emulator/Cpu.c:421-450 | both pre-thunks: argument registers, reversed stack arguments, home zone, return address |
| CpuContexts.CpuContext.EmuThunkPost | Drivers/Emulator/Cpu.c:452-487 | both post-thunks pop exactly the stack arguments |
| CpuContexts.CpuContext.FetchNativeArgs | Drivers/Emulator/Native.c:220-289 | the 16 values a native function receives |
| CpuContexts.CpuContext.SpillHomeZone | Drivers/Emulator/Native.c:266-269 | the wrapper path's four stores |
| CpuContexts.CpuContext.FinishNativeThunk | Drivers/Emulator/Native.c:197-199 | value register and, on x64, the popped return address |
| CpuContexts.CpuContext.StackPush64 | Drivers/Emulator/Cpu.c:343-356 | stack pointer down by 8 with wrap-around, value stored there |
| CpuContexts.CpuContext.StackPop64 | Drivers/Emulator/Cpu.c:328-341 | value at the stack pointer, which moves up by 8 |
| CpuContexts.CpuContext.StackPushRedZone | Drivers/Emulator/Cpu.c:315-326 | stack pointer down by 128, nothing written |
| RunModel.EnterKeeps | Drivers/Emulator/Cpu.c:977-988 | listing a context keeps counters and snapshot rule and disturbs nothing older |
| RunModel.CaptureKeeps | Drivers/Emulator/Cpu.c:1395-1408 | capturing the engine is invisible to every older context |
| RunModel.RestoreKeeps | Drivers/Emulator/Cpu.c:1412-1416 | giving the engine back is invisible to every older context |
| RunModel.LeaveKeeps | Drivers/Emulator/Cpu.c:990-1003 | unlisting a finished context is invisible to older ones and its counter stays non-negative |
| RunModel.CompressKeeps | Drivers/Emulator/Cpu.c:1528-1551 | unlinking down to any age leaves counters right and non-negative and older contexts undisturbed |
| RunContexts.Emulator.EnterCritical | Drivers/Emulator/Cpu.c:977-988 | on the linked records: chain extended by the context, counter and interrupt state as in RunModel |
| RunContexts.Emulator.LeaveCritical | Drivers/Emulator/Cpu.c:990-1003 | on the linked records: the newest context comes off, the rest of the chain is unchanged |
| RunContexts.Emulator.SaveOrReset | Drivers/Emulator/Cpu.c:1395-1408 | snapshot and red zone exactly when the CPU has another context, initial state otherwise |
| RunContexts.Emulator.CaptureEngine | Drivers/Emulator/Cpu.c:1395-1410 | the start of a run on the linked records is RunModel.Capture, and with room on the stack the guest is entered with its 16 arguments and its return address in place and nothing changed at or above the base stack pointer |
| RunContexts.Emulator.RestoreEngine | Drivers/Emulator/Cpu.c:1412-1416 | the restore on the linked records is RunModel.Restore |
| RunContexts.Emulator.FinishRun | Drivers/Emulator/Cpu.c:1157-1165 | post-thunk unless emulation failed, return value read before the restore, EFI_UNSUPPORTED on failure |
| RunContexts.Emulator.AllocContext | Drivers/Emulator/Cpu.c:1214-1230 | the pooled object at the head of the free queue, scrubbed whatever its last use left, never a listed one, or nothing when the pool is exhausted |
| RunContexts.Emulator.UnlinkLeaked | Drivers/Emulator/Cpu.c:1528-1553 | the unlinking section: list cut at the right age, every engine unwound on its own CPU, counters matched; its counter assertion holds |
| RunContexts.Emulator.FreeLeaked | Drivers/Emulator/Cpu.c:1555-1560 | the freeing loop returns every unlinked context to its own CPU's pool, newest first |
| RunContexts.Emulator.CompressLeakedContexts | Drivers/Emulator/Cpu.c:1501-1561 | both loops together, for a thunk's repair and for image exit |
| Refinement.ThunkRepairAgrees | Drivers/Emulator/Native.c:82-105 | the run machine's return, section and freeing turns end in the state that call leaves |
| Refinement.ImageExitAgrees | Drivers/Emulator/Cpu.c:1603-1622 | the run machine's exit, section, freeing turns and return end in the state that call on image exit leaves, back in the caller of CpuRunImage |
| RunContexts.Emulator.CheckLeakedContexts | Drivers/Emulator/Native.c:82-105 | afterwards mTopContext is the thunk's own context; nothing happens when it already was |
| RunContexts.Emulator.InnermostImageContext | Drivers/Emulator/Cpu.c:1649-1652 | finds the newest listed context that runs an image, or null |
| RunContexts.Emulator.ExitImage | Drivers/Emulator/Cpu.c:1640-1669 | accepts exactly the innermost image's record, leaves everything but the interrupt state alone, and its assertion holds exactly when an image is listed |
| Theorems.AssertionsFireIff | Drivers/Emulator/Cpu.c:996-1002 | from every reachable state a step fails an assertion exactly when emulated code exits a started image while no image is listed, and then it is the one at Cpu.c:1654; never top mismatch, negative counter, unapplied state at free, double free, interrupts on after a slice, re-entered engine or stray section end |
| Theorems.LeavesAndFreesSafely | Drivers/Emulator/Cpu.c:1232-1248 | at every leave the context is on top with a non-negative counter after it; what is freed carries no snapshot and is not free already |
| Theorems.SectionsFit | Drivers/Emulator/Cpu.c:1088-1096 | slices end with interrupts off, no slice or code-range change begins while one is open, sections end inside sections |
| Theorems.RepairsSafely | Drivers/Emulator/Cpu.c:1528-1551 | a repair finds its context on the list and leaves both counters non-negative |
| Theorems.ActivationNeverStuck | Drivers/Emulator/Cpu.c:1377-1423 | in every reachable state the activation on top can take its next step of the protocol |
| Theorems.NativeNeverStuck | Drivers/Emulator/Cpu.c:1466-1491 | in every reachable state native code can start a run, return, or long-jump to any live frame that is not an event handler's or below one |
| Theorems.ThreeWayAgreement | Application/EmulatorTest/EmulatorTest.c:671-674 | in every reachable state counters equal per-CPU list counts and add up to the list length, and each pool slot is exactly one of free, listed, in flight |
| Theorems.RunUsesPool | Drivers/Emulator/Cpu.c:1214-1248 | in every run the free queue of each CPU is the one the object pool is in after the run's allocations and frees |
| Theorems.SectionsAreExclusive | Drivers/Emulator/Cpu.c:1088-1116 | depth is 0 or 1, interrupts are off inside, only the newest frame can be in a section, and while one is open only its own steps and client hook calls can happen |
| Theorems.ListEditedInSection | Drivers/Emulator/Cpu.c:983-1003 | the context list only changes inside a section with real interrupts off |
| Theorems.JitRunsAlone | Drivers/Emulator/Cpu.c:1079-1096 | emulated code runs only at depth 1 with interrupts off, in one frame |
| Theorems.CodeRangeInSection | Drivers/Emulator/Cpu.c:1167-1212 | code-range changes run in a section of their own with no JIT slice open anywhere, which gives the interrupts back |
| Theorems.InterruptsAsSet | Drivers/Emulator/EfiHooks.c:30-77 | in every run clients see what the last of them set, or the flag the driver started with; outside sections the hardware has it, inside it is off |
| Transparency.NativeCallTransparent | Drivers/Emulator/Native.c:204-297 | when a native thunk is about to write the return value, list, counters, free slots and the whole register file are those at its entry, whatever ran, leaked, jumped or fired in between, and everything below it on the native stack is unchanged |
| Transparency.RunTransparent | Drivers/Emulator/Cpu.c:1466-1491 | once an activation is gone, by return, failure or image exit, everything, the native stack included, is as before it was allocated |
| Transparency.EventTransparent | Drivers/Emulator/Cpu.c:1088-1116 | when an event handler returns, the activation it interrupted is in the phase it was interrupted in and everything is as at the interruption |
| Transparency.AcceptedExitIsInnermost | Drivers/Emulator/Cpu.c:1649-1674 | an accepted live exit unlinks exactly the image's own context and everything newer, among which there is no other image |
| Transparency.ExitAcceptedIff | Drivers/Emulator/Cpu.c:1649-1662 | a record is accepted exactly when its image is listed with no newer image |
| Transparency.RefusedExitChangesNothing | Drivers/Emulator/Cpu.c:1640-1669 | a refused exit returns to its caller with everything as it was |
| Transparency.ExitTargetLiveIff | Drivers/Emulator/Cpu.c:1603-1674 | over every run: the frame in the jump buffer of an image is live exactly as long as native code has not gone back below the call that started the image, with no event handler on top |
| Transparency.MendedThunkAgrees | Drivers/Emulator/Cpu.c:1501-1561 | after any repair the state agrees with the thunk's entry snapshot |
| PrivateRegisters.SharedEnginesRefinePrivateRegisters | Drivers/Emulator/Cpu.c:1377-1423 | every step of every run is the prescribed move of a machine in which each context owns its registers |
| PrivateRegisters.SuspendedRegistersFrozen | Drivers/Emulator/Cpu.c:1501-1561 | while something newer stays listed, a suspended context keeps its registers |
| PrivateRegisters.SuspendedRegistersAreSnapshot | Drivers/Emulator/Cpu.c:1395-1398 | a suspended context's registers are the snapshot held by the next newer running context of its CPU |
| PrivateRegisters.StartAgrees | Drivers/Emulator/Cpu.c:1395-1408 | a context starts from the initial state if alone on its CPU, below the red zone of the newest running one otherwise, and from leftovers if others are listed but none is running |
| PrivateRegisters.StartsWhereIntendedIff | Drivers/Emulator/Cpu.c:1389-1416 | the base is the initial state or the red zone of the newest running context exactly when the CPU has no other context, or one is running, or the leftovers look like the initial state |
| StackIsolation.NestedPushesSpareSuspended | Drivers/Emulator/Cpu.c:1395-1410 | in a run whose activations keep the ABI relative to their own entry stack pointer, the thunk of a nested start writes below the red zone of every suspended context of the CPU |
| StackIsolation.RunsAreStacked | Drivers/Emulator/Cpu.c:1395-1410 | in such runs the running contexts of a CPU are stacked downward at least a red zone apart |
| StackIsolation.NestedEntryExact | Drivers/Emulator/Cpu.c:1395-1410 | in such runs a nested context was entered exactly one red zone and one thunk frame below where the newest older running context of its CPU is suspended |
| StackIsolation.RunKeepsEntries | Drivers/Emulator/Native.c:197-199 | along such runs each activation stays in its own frame, native thunks popping its return address included |
| StackIsolation.FinishSettlesEngine | Drivers/Emulator/Cpu.c:1157-1165 | a finished run leaves the snapshot in its engine, or the stack pointer its thunk found if the callee kept the ABI, or after a failure what was there |
| Limits.EventInWindowStartsStale | Drivers/Emulator/Cpu.c:1389-1408 | a reachable run in which an event's activation starts from the register file a failed run left behind, fired before the capture |
| Limits.EventAfterRestoreStartsStale | Drivers/Emulator/Cpu.c:1412-1421 | the same with the event fired after the restore and before the context is unlisted |
| Limits.LeakedImageIsAccepted | Drivers/Emulator/Cpu.c:1640-1674 | a reachable state in which exit accepts an image whose native frame is gone |
| Limits.ExitAssertionCanFail | Drivers/Emulator/Cpu.c:1649-1654 | a run that fails it: an image starts and returns, is called back, and exits with its own handle |
| Orphans.SplitsExactly | Drivers/Emulator/Cpu.c:1322-1339 | kept are precisely the contexts with a cookie above the new frame pointer, and the strict order is restored |
| Orphans.AlwaysDescending | Drivers/Emulator/Cpu.c:1315-1339 | the order holds after any history of starts, slices, removals and long jumps |
| Orphans.LiveNeverDetached | Drivers/Emulator/Cpu.c:1280-1297 | on a stack that grows downward, after any history, no context whose native frame is live is split off |
| Orphans.TotalConserved | Drivers/Emulator/Cpu.c:1330-1337 | after any history, with orphans of any CPU, the counters add up to the list length |
| Orphans.SlotsConserved | Drivers/Emulator/Cpu.c:1360-1373 | over any history each pool slot stays exactly as often free or listed as it was, orphans included |
| Orphans.SectionsClosed | Drivers/Emulator/Cpu.c:1375-1389 | over any history every section opened is closed and real interrupts are as before |
| Orphans.RunLeavesNoTrace | Drivers/Emulator/Cpu.c:1375-1424 | a run below everything listed leaves list, cookies, counters and used engines as they were, whether it returns or is jumped over and repaired |
| Orphans.CountersRightIff | Drivers/Emulator/Cpu.c:1330-1337 | each single counter is right exactly when every orphan was on the new context's CPU |
| Orphans.CountersCanGoNegative | Drivers/Emulator/Cpu.c:1336-1337 | an x64 run over two AArch64 orphans fails the counter assertion |
| Orphans.StartKeepsListIff | Drivers/Emulator/Cpu.c:1322-1373 | detection and freeing keep counters and snapshot rule exactly when the orphans share the new context's CPU |
| Orphans.NestedTestRightIff | Drivers/Emulator/Cpu.c:1395 | the new context's nested test is right exactly when none of its CPU stays or fewer orphans of the other CPU go than stay |
| Orphans.HistoryKeepsList | Drivers/Emulator/Cpu.c:1375-1424 | counters and snapshot rule hold after every history whose orphans share the CPU of the run that detects them |
| Orphans.OrphansFreeableIff | Drivers/Emulator/Cpu.c:1360-1373 | after every such history freeing the orphans fails no assertion exactly when no running one was started over an older context of its CPU |
| Orphans.OrphanAssertionCanFail | Drivers/Emulator/Cpu.c:1245 | a history that fails it: two nested x64 runs jumped over, then a run from further up the stack |
| Orphans.DetectOrphans | Drivers/Emulator/Cpu.c:1280-1358 | both loops: the split point, one null-terminated chain of orphans, the counter, and whether its assertion held |
| Orphans.FreeOrphans | Drivers/Emulator/Cpu.c:1360-1373 | the freeing loop returns the whole chain to the pools of its contexts, newest first |
| ObjectPool.Pool.Alloc | Drivers/Emulator/ObjectAlloc.c:127-165 | hands out the head of the free queue, or nothing when it is empty or the callback refuses |
| ObjectPool.Pool.Free | Drivers/Emulator/ObjectAlloc.c:167-186 | appends the slot to the free queue |
| ObjectPool.Pool.IsListEmpty | Drivers/Emulator/ObjectAlloc.c:115-119 | a slot's link is empty exactly when the slot is allocated |
| ObjectPool.PoolIsFifo | Drivers/Emulator/ObjectAlloc.c:127-186 | over any history, slots handed out followed by the queue are the initial queue followed by the slots freed |
| ObjectPool.SlotsConserved | Drivers/Emulator/ObjectAlloc.c:127-186 | each slot stays exactly as often free or live as it was |
| ObjectPool.LiveNeverHandedOut | Drivers/Emulator/ObjectAlloc.c:146-164 | the next slot handed out is never live, and free plus live equals the object count |
| ObjectPool.ArenaArithmetic | Drivers/Emulator/ObjectAlloc.c:40-61 | recomputed count at least the requested one, slots disjoint and inside the arena, pages freed equal pages allocated |
| ObjectPool.RoundUpBounds | Drivers/Emulator/Emulator.h:67 | rounding up gives the least multiple of the alignment that holds the object |
| ObjectPool.MaskRoundsUp | Drivers/Emulator/Emulator.h:67 | the macro's mask computes it for every power of two below 2^64 |
| ObjectPool.Create | Drivers/Emulator/ObjectAlloc.c:14-96 | status, callback calls and remaining allocations in every case, and a full pool on success |
| ObjectPool.RollbackIsExact | Drivers/Emulator/ObjectAlloc.c:75-92 | a failing OnCreate at slot k destroys slots k - 1 down to 0 once each and nothing else, and nothing stays allocated |
| ObjectPool.FailedCreateHoldsNothingIff | Drivers/Emulator/ObjectAlloc.c:42-44 | a failed create leaves nothing allocated exactly when the slot is not smaller than the header (or the context was never allocated) |
| ObjectPool.CreateStatusIff | Drivers/Emulator/ObjectAlloc.c:14-96 | exactly when each failure status is returned |
| ObjectPool.DestroyMatchesCreate | Drivers/Emulator/ObjectAlloc.c:98-125 | a successful create called OnCreate once per slot in order and holds the pages destroy frees; destroy calls OnDestroy once per slot in order |
| ObjectPool.Destroy | Drivers/Emulator/ObjectAlloc.c:98-125 | OnDestroy once per slot in order, and exactly the pages of create are freed |
| Timeout.TimeoutControl.TimeoutCb | Drivers/Emulator/Cpu.c:94-97 | counts with 64-bit wrap-around and stops exactly when the count is due |
| Timeout.TimeoutControl.Recalibrate | Drivers/Emulator/Cpu.c:1099-1112 | halves when late, doubles when early, only after a timeout stop and within the bounds |
| Timeout.Adapted | Drivers/Emulator/Cpu.c:1099-1112 | late halves unless at the minimum, early doubles unless at the maximum, on time keeps |
| Timeout.PeriodAlwaysOk | Drivers/Emulator/Cpu.c:31-33 | after any history the period is a power of two between the bounds |
| Timeout.MaskIsDivisibility | Drivers/Emulator/Cpu.c:94 | for every such period the mask test is divisibility |
| Timeout.StopsWithinPeriod | Drivers/Emulator/Cpu.c:94-97 | from any 64-bit count the first stop comes within one period, after exactly the computed number of callbacks |
| CallRecovery.RecoversJalrIff | Drivers/Emulator/RISCV64/Emulator.c:49-87 | for jalr x1 with any signed 12-bit offset and a consistent SEPC recovery yields rs plus the offset modulo 2^64 exactly when rs is not x1 (or x1 already held the return address) |
| CallRecovery.RecoversCJalrIff | Drivers/Emulator/RISCV64/Emulator.c:100-127 | the same for c.jalr after a halfword that does not end in binary 11 |
| CallRecovery.CJalrMisreadIff | Drivers/Emulator/RISCV64/Emulator.c:50-98 | after any other halfword a c.jalr is decoded at all exactly when the two pass for a jalr x1 |
| CallRecovery.DecodesCallsOnly | Drivers/Emulator/RISCV64/Emulator.c:49-137 | a target is decoded exactly for a jalr x1 (bit 2 of func3 free) or a c.jalr after a halfword that does not end in binary 11 |
| CallRecovery.ConfirmedIsNearSepc | Drivers/Emulator/RISCV64/Emulator.c:71-126 | every confirmed target exceeds SEPC by at most 3, or 1 when compressed |
| CallRecovery.FieldsAreMasks | Drivers/Emulator/RISCV64/Emulator.c:54-107 | division and remainder give the same fields as the masks and shifts |
| ImageRegistry.Registry.FindByAddress | Drivers/Emulator/Image.c:43-65 | the first registered image that covers the address |
| ImageRegistry.Registry.IsNative | Drivers/Emulator/Emulator.c:15-33 | classifies jump targets by alignment, page 0 and the registry |
| ImageRegistry.Registry.RegisterImage | Drivers/Emulator/Image.c:137-173 | new state and status, with the record kept when attributes fail |
| ImageRegistry.Registry.UnregisterImage | Drivers/Emulator/Image.c:175-206 | removes the image that covers the address together with its protections, or reports that there is none |
| ImageRegistry.RunAgrees | Drivers/Emulator/Cpu.c:1167-1212 | over any legal sequence an address is executable on an engine exactly when it lies in a registered image of that CPU, and protected on the host exactly when it lies in any |
| ImageRegistry.ExecutableIsNotNative | Drivers/Emulator/Emulator.c:15-33 | an executable address is never classed as native |
| ImageRegistry.NativeIff | Drivers/Emulator/Emulator.c:15-33 | after any legal sequence a jump above page 0 is native exactly when it is aligned and hits no registered image, that is, is executable on the host; in page 0 exactly when aligned |
| ImageRegistry.CoversItsBytes | Drivers/Emulator/Image.c:43-65 | an image that does not wrap covers its base + size bytes and no others; one that wraps covers none |
| ImageRegistry.UnregisterFindsIff | Drivers/Emulator/Image.c:175-206 | unregister succeeds exactly when an image covers the address and otherwise changes nothing |
| ImageRegistry.UnregisterUndoesRegister | Drivers/Emulator/Image.c:175-206 | register followed by unregister restores the list and every protection |
| ImageRegistry.RemovalAgreesIff | Drivers/Emulator/Image.c:185-203 | at an address of a removed image engine and registry agree exactly when no other image of its CPU covers it |
| ImageRegistry.RegisterAllOrNothingIff | Drivers/Emulator/Image.c:137-173 | register succeeds or changes nothing exactly when the attributes can be set; otherwise the image stays listed and executable |

## Left out

- JIT internals (translation cache, hooks, MMIO mapping): only that a slice may leave any register file and that save and restore copy it.
- `CpuRunCtxInternal`'s loop and `CpuRunFunc`/`CpuRunImage` as single methods: they call back into arbitrary code, so they are steps of the run machine.
- `MAU_ON_PRIVATE_STACK`: off by default; the flag test at `Cpu.c:1425` follows the flag's own clearing at `Cpu.c:1415`.
- Orphan detection inside the run machine: it drops snapshots and miscounts, so the run theorems are for builds without it and it is modelled as its own algorithm.
- The NULL dereference of an exhausted pool in `CpuRunImage`'s debug print (`Cpu.c:1591`): debug output; the machine continues as `CpuRunFunc` does.
- Emulated memory in the run machine: it carries registers only; the memory half of the thunks is in `Thunks` and tied in by `StackIsolation`.
- Stack alignment of x64 nested entry: the pushes do not establish 16-byte alignment.
- Unaligned overlap of stack cells: memory is a store of 8-byte cells named by address, and the thunks only use addresses congruent modulo 8.
- Event handlers that long-jump past what they interrupted, or in their own frame over runs they started: nothing repairs the list on that path.
- Theorems.ListEditedInSection: a step of the run machine opens a section and edits the list at once; the order inside the step is that of the methods in `RunContexts`.
- Unloading an image, which frees its record and with it the handle: a started record keeps its handle.
- Handle lookup in `CpuExitImage` (`ImageFindByHandle`) and the exit data fields: parameters.
- ObjectPool.Create: covers a non-null `OnCreate`, as with a null one the status tested at `ObjectAlloc.c:75` was never assigned; the callback's outcome per slot is a parameter.
- ImageRegistry.RunAgrees: is about images that do not wrap or overlap and protect calls that succeed; overlap is covered by `RemovalAgreesIff`.
- Port I/O, NULL-page callbacks, dumps, debug state, event wrappers, driver binding, entry points, option-ROM and console tools, exception glue of AArch64 and LoongArch.

/**
 * Where the protocol's promises stop, shown on runs the driver can really take:
 * an event in the window before a context has captured its engine, and gBS->Exit with the handle
 * of an image that was left by a long jump, or without any image listed.
 */
module Limits {
  import opened Words
  import opened Interrupts
  import opened Thunks
  import opened RunModel
  import opened Machine
  import Preservation
  import opened Theorems
  import opened PrivateRegisters

  /** Native code is executing, interrupts are on, and the x64 pool has a free slot. */
  predicate CanStart(s: State) {
    && s.control != [] && Top(s).Native? && !Top(s).busy && s.core.irq == Irq(true, 0, true)
    && s.core.free.x64 != []
  }

  /** Allocation, CpuEnterCritical and the end of its section. */
  lemma RunX64(s: State, image: Option<nat>, slots: nat) returns (s': State)
    requires Reachable(s, slots) && CanStart(s) && (image.Some? ==> image.value !in s.buffers)
    ensures Reachable(s', slots)
    ensures s'.core == s.core.(free := PerCpu(s.core.free.x64[1..], s.core.free.aarch64), count := Bump(s.core.count, X64, 1),
                               list := s.core.list + [Ctx(s.core.free.x64[0], X64, image, false, None)])
    ensures s'.control == s.control + [Run(s.core.free.x64[0], X64, image, Phase.Linked, s.core)]
    ensures s'.buffers == if image.Some? then s.buffers[image.value := |s.control|] else s.buffers
  {
    var s1 := StepCallRun(s, X64, image).s;
    StepReaches(s, CallRun(X64, image), s1, slots);
    var s2 := StepEnter(s1).s;
    StepReaches(s1, EnterCritical, s2, slots);
    s' := StepEndSection(s2).s;
    StepReaches(s2, EndSection, s', slots);
  }

  lemma CaptureX64(s: State, args: Args, slots: nat) returns (s': State)
    requires Reachable(s, slots) && Top(s).Run? && Top(s).phase.Linked? && s.core.list != []
    ensures Reachable(s', slots) && s'.core == Capture(s.core, args) && s'.buffers == s.buffers
    ensures s'.control == SetTop(s, Goto(Top(s), Ready))
  {
    s' := StepCapture(s, args).s;
    StepReaches(s, CaptureEngine(args), s', slots);
  }

  lemma BeginSliceX64(s: State, slots: nat) returns (s': State)
    requires Reachable(s, slots) && Top(s).Run? && Top(s).phase.Ready?
    ensures Reachable(s', slots) && s'.buffers == s.buffers
    ensures s'.core == s.core.(irq := Begin(s.core.irq)) && s'.control == SetTop(s, Goto(Top(s), InJit))
  {
    ReachableShape(s, slots);
    Preservation.JitOnlyOnTop(s.control);
    s' := StepBeginSlice(s).s;
    StepReaches(s, BeginSlice, s', slots);
  }

  /** One slice that leaves the engine in state r and stops for the given reason. */
  lemma SliceX64(s: State, r: Regs, reason: Reason, slots: nat) returns (s': State)
    requires Reachable(s, slots) && Top(s).Run? && Top(s).phase.Ready? && s.core.irq == Irq(true, 0, true)
    requires s.core.list != [] && Head(s.core).cpu == X64 && reason != Continue
    ensures Reachable(s', slots) && s'.buffers == s.buffers
    ensures s'.core == s.core.(engine := PerCpu(r, s.core.engine.aarch64))
    ensures s'.control == SetTop(s, Goto(Top(s), Stopped(reason)))
  {
    var s1 := BeginSliceX64(s, slots);
    var s2 := StepSlice(s1, r).s;
    StepReaches(s1, Slice(r), s2, slots);
    s' := StepEndSlice(s2, reason).s;
    StepReaches(s2, EndSlice(reason), s', slots);
  }

  /** Emulated code running to its first stop. */
  lemma RunsX64(s: State, image: Option<nat>, args: Args, r: Regs, reason: Reason, slots: nat) returns (s': State)
    requires Reachable(s, slots) && CanStart(s) && (image.Some? ==> image.value !in s.buffers) && reason != Continue
    ensures Reachable(s', slots) && s'.core.free == PerCpu(s.core.free.x64[1..], s.core.free.aarch64)
    ensures s'.core.irq == s.core.irq && |s'.core.list| == |s.core.list| + 1
    ensures s'.core.engine.x64 == r && s'.core.initial == s.core.initial && s'.core.magic == s.core.magic
    ensures Head(s'.core).id == s.core.free.x64[0] && Head(s'.core).cpu == X64 && Head(s'.core).image == image
    ensures Head(s'.core).saved.Some? <==> s.core.count.x64 > 0
    ensures s'.core.count == Bump(s.core.count, X64, 1)
    ensures s'.core.list[..|s.core.list|] == s.core.list
    ensures s'.control == s.control + [Run(s.core.free.x64[0], X64, image, Stopped(reason), s.core)]
    ensures s'.buffers == if image.Some? then s.buffers[image.value := |s.control|] else s.buffers
  {
    var s1 := RunX64(s, image, slots);
    var s2 := CaptureX64(s1, args, slots);
    s' := SliceX64(s2, r, reason, slots);
  }

  /** Emulated code that has come to call native code. */
  lemma CallsNative(s: State, image: Option<nat>, args: Args, r: Regs, slots: nat) returns (s': State)
    requires Reachable(s, slots) && CanStart(s) && (image.Some? ==> image.value !in s.buffers)
    ensures Reachable(s', slots) && s'.core.free == PerCpu(s.core.free.x64[1..], s.core.free.aarch64)
    ensures s'.core.irq == s.core.irq && |s'.core.list| == |s.core.list| + 1
    ensures Head(s'.core).image == image && s'.core.list[..|s.core.list|] == s.core.list
    ensures |s'.control| == |s.control| + 2 && s'.control[..|s.control|] == s.control
    ensures s'.control[|s.control|].Run? && s'.control[|s.control|].image == image
    ensures Top(s').Native? && Top(s').origin == Called && !Top(s').busy
    ensures s'.buffers == if image.Some? then s.buffers[image.value := |s.control|] else s.buffers
  {
    var s1 := RunsX64(s, image, args, r, CallToNative, slots);
    s' := StepCallNative(s1).s;
    StepReaches(s1, CallNative, s', slots);
  }

  // ----- an event in the capture window -----

  /** Nothing listed, native code executing. */
  predicate IdleX64(s: State) { CanStart(s) && s.core.list == [] && |s.core.free.x64| >= 2 }

  lemma IdleCount(s: State, slots: nat)
    requires Reachable(s, slots) && s.core.list == []
    ensures s.core.count.x64 == 0
  {
    ReachableList(s, slots);
    assert s.core.count.Get(X64) == Count(s.core.list, X64);
  }

  /** The only listed context returns or fails: there is no snapshot to give back. */
  lemma FinishesAlone(s: State, slots: nat) returns (s': State)
    requires Reachable(s, slots) && Top(s).Run? && Top(s).phase.Stopped? && Top(s).phase.reason in {ReturnToNative, FailedEmu}
    requires |s.core.list| == 1 && Head(s.core).saved.None?
    ensures Reachable(s', slots) && s'.buffers == s.buffers
    ensures s'.core == s.core.(list := [Idle(Head(s.core))], engine := s'.core.engine)
    ensures Top(s).phase.reason == FailedEmu ==> s'.core.engine == s.core.engine
    ensures s'.control == SetTop(s, Goto(Top(s), Finished))
  {
    s' := StepFinish(s).s;
    StepReaches(s, Finish, s', slots);
    assert s.core.list[..0] == [];
  }

  /** A finished context that is alone comes off the list. */
  lemma UnlinksAlone(s: State, slots: nat) returns (s': State)
    requires Reachable(s, slots) && Top(s).Run? && Top(s).phase == Finished
    requires |s.core.list| == 1 && OwnsHead(s.core, Top(s))
    requires s.core.count.Get(Top(s).cpu) == 1 && s.core.irq == Irq(true, 0, true)
    ensures Reachable(s', slots) && s'.buffers == s.buffers
    ensures s'.core == s.core.(list := [], count := Bump(s.core.count, Top(s).cpu, -1))
    ensures s'.control == SetTop(s, Goto(Top(s), Left(Head(s.core))))
  {
    var s1 := StepLeave(s).s;
    StepReaches(s, LeaveCritical, s1, slots);
    s' := StepEndSection(s1).s;
    StepReaches(s1, EndSection, s', slots);
  }

  lemma FreesAlone(s: State, slots: nat) returns (s': State)
    requires Reachable(s, slots) && Top(s).Run? && Top(s).phase.Left?
    ensures Reachable(s', slots) && s'.control == Popped(s) && s'.buffers == s.buffers
    ensures var x := Top(s).phase.own; s'.core == PutSlot(s.core, x.cpu, x.id)
  {
    AssertionsFireIff(s, FreeSelf, slots);
    s' := StepFreeSelf(s).s;
    StepReaches(s, FreeSelf, s', slots);
  }

  /** From the end of emulation to the return of CpuRunFunc or CpuRunImage. */
  lemma EndsAlone(s: State, slots: nat) returns (s': State)
    requires Reachable(s, slots) && Top(s).Run? && Top(s).phase.Stopped? && Top(s).phase.reason in {ReturnToNative, FailedEmu}
    requires |s.core.list| == 1 && OwnsHead(s.core, Top(s)) && Head(s.core).saved.None?
    requires s.core.count.Get(Top(s).cpu) == 1 && s.core.irq == Irq(true, 0, true)
    ensures Reachable(s', slots) && s'.core.list == [] && s'.core.irq == s.core.irq
    ensures Top(s).phase.reason == FailedEmu ==> s'.core.engine == s.core.engine
    ensures s'.core.free == s.core.free.Set(Top(s).cpu, s.core.free.Get(Top(s).cpu) + [Top(s).id])
    ensures s'.core.initial == s.core.initial && s'.core.magic == s.core.magic
    ensures s'.control == Popped(s) && s'.buffers == s.buffers
  {
    var s1 := FinishesAlone(s, slots);
    var s2 := UnlinksAlone(s1, slots);
    s' := FreesAlone(s2, slots);
  }

  /** A failing run leaves its last register file behind in the engine. */
  lemma FailureLeavesEngine(s: State, args: Args, r: Regs, slots: nat) returns (s': State)
    requires Reachable(s, slots) && IdleX64(s)
    ensures Reachable(s', slots) && IdleX64(s') && s'.core.engine.x64 == r
    ensures s'.core.initial == s.core.initial && s'.core.magic == s.core.magic && s'.control == s.control
  {
    IdleCount(s, slots);
    var s1 := RunsX64(s, None, args, r, FailedEmu, slots);
    s' := EndsAlone(s1, slots);
  }

  /** An event whose handler runs emulated code of its own, over a context that is not running. */
  lemma EventStartsStale(s: State, args: Args, slots: nat) returns (s': State)
    requires Reachable(s, slots) && Top(s).Run? && s.core.irq == Irq(true, 0, true) && s.core.free.x64 != []
    requires |s.core.list| == 1 && Head(s.core).cpu == X64 && !Head(s.core).started
    ensures Reachable(s', slots) && |s'.core.list| == 2
    ensures Owners(s'.core)[0].regs.None?
    ensures Owners(s'.core)[1].regs == Some(PreRegs(X64, RedZone(s.core.engine.x64), args, s.core.magic))
  {
    ReachableList(s, slots);
    assert s.core.count.Get(X64) == Count(s.core.list, X64) == 1 by {
      assert s.core.list[..0] == [];
    }
    var s1 := StepFireEvent(s).s;
    StepReaches(s, FireEvent, s1, slots);
    var s2 := RunX64(s1, None, slots);
    s' := CaptureX64(s2, args, slots);
    OwnerOnTop(s'.core);
  }

  /**
   * If an event fires after a context has been listed but before it has captured the engine, the
   * handler's run is counted as nested although nobody is running: it starts, below a red zone,
   * from the register file r an earlier failed run left behind, not from the initial state.
   */
  lemma EventInWindowStartsStale(s: State, args: Args, r: Regs, slots: nat) returns (s': State)
    requires Reachable(s, slots) && IdleX64(s)
    ensures Reachable(s', slots) && |s'.core.list| == 2
    ensures Owners(s'.core)[0].regs.None?
    ensures Owners(s'.core)[1].regs == Some(PreRegs(X64, RedZone(r), args, s.core.magic))
  {
    var s1 := FailureLeavesEngine(s, args, r, slots);
    var s2 := RunX64(s1, None, slots);
    s' := EventStartsStale(s2, args, slots);
  }

  /** The same if the event fires after a run has given the engine back but before it is unlisted. */
  lemma EventAfterRestoreStartsStale(s: State, args: Args, r: Regs, slots: nat) returns (s': State)
    requires Reachable(s, slots) && IdleX64(s)
    ensures Reachable(s', slots) && |s'.core.list| == 2
    ensures Owners(s'.core)[0].regs.None?
    ensures Owners(s'.core)[1].regs == Some(PreRegs(X64, RedZone(r), args, s.core.magic))
  {
    IdleCount(s, slots);
    var s1 := RunsX64(s, None, args, r, FailedEmu, slots);
    var s2 := FinishesAlone(s1, slots);
    s' := EventStartsStale(s2, args, slots);
  }

  // ----- gBS->Exit -----

  /**
   * An image left by a long jump stays listed until the next repair. Emulated code started in
   * the meantime can name it in gBS->Exit: the check accepts, but the frame its jump buffer
   * points at is gone. The transparency theorems therefore assume the target is live.
   */
  lemma LeakedImageIsAccepted(s: State, record: nat, args: Args, r: Regs, slots: nat) returns (s': State)
    requires Reachable(s, slots) && CanStart(s) && |s.core.free.x64| >= 2
    requires record !in s.buffers && Top(s).origin == Base
    ensures Reachable(s', slots) && ExitAccepted(s'.core, record) && !ExitTargetLive(s', record)
  {
    var s1 := CallsNative(s, Some(record), args, r, slots);
    var d := |s.control| - 1;
    var s2 := s1.(control := s1.control[..d + 1]);
    assert s1.control[..d + 1] == s.control;
    assert NoEventAbove(s1.control, d) by {
      assert s1.control[d + 1].Run?;
    }
    StepReaches(s1, LongJump(d), s2, slots);
    s' := CallsNative(s2, None, args, r, slots);
    var n := |s.core.list|;
    assert s'.core.list[n] == s'.core.list[..n + 1][n] == s1.core.list[n];
    assert InnermostImage(s'.core.list) == Some(n);
  }

  /** An image that starts on an idle driver and returns: its record has a handle from then on. */
  lemma ImageReturns(s: State, record: nat, args: Args, r: Regs, slots: nat) returns (s': State)
    requires Reachable(s, slots) && IdleX64(s) && record !in s.buffers
    ensures Reachable(s', slots) && IdleX64(s') && record in s'.buffers && s'.control == s.control
  {
    IdleCount(s, slots);
    var s1 := RunsX64(s, Some(record), args, r, ReturnToNative, slots);
    s' := EndsAlone(s1, slots);
  }

  /**
   * A driver whose entry point has returned is called back later and calls gBS->Exit with its own
   * handle: the handle is found, no image is listed, and the assertion of CpuExitImage fails.
   */
  lemma ExitAssertionCanFail(s: State, record: nat, args: Args, r: Regs, slots: nat) returns (s': State)
    requires Reachable(s, slots) && IdleX64(s) && record !in s.buffers
    ensures Reachable(s', slots) && Step(s', ExitImage(record)) == Fault(NoImageListed)
  {
    var s1 := ImageReturns(s, record, args, r, slots);
    s' := CallsNative(s1, None, args, r, slots);
    assert s'.core.list == [Head(s'.core)];
    ExitWithoutImageFails(s', ExitImage(record));
  }

  /** The starting points above exist: a fresh driver with interrupts on is one. */
  lemma FreshDriverIsIdle(slots: nat, initial: PerCpu<Regs>, magic: Word)
    requires slots >= 2
    ensures var s := Init(slots, initial, magic, true);
            Reachable(s, slots) && IdleX64(s) && Top(s).origin == Base && s.buffers == map[]
  {
    var s := Init(slots, initial, magic, true);
    var states, actions: seq<Action> := [s], [];
    assert IsRun(states, actions, slots) && states[|actions|] == s;
  }
}

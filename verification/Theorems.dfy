/** Theorems about whole runs of the driver. */
module Theorems {
  import opened Words
  import opened Thunks
  import opened Interrupts
  import opened RunModel
  import opened Machine
  import opened Invariant
  import opened Preservation
  import ObjectPool

  // ----- safety -----

  /** The steps of native code, events and clients. */
  predicate NativeStep(a: Action) {
    a.CallRun? || a.CallNative? || a.FireEvent? || a.Hook? || a.BeginCodeRange?
  }

  /** The steps that go back down the control stack, or jump down it. */
  predicate Unwinds(a: Action) {
    a.ReturnFromNative? || a.ExitImage? || a.LongJump? || a.ReturnFromEvent? || a.FreeSelf? || a.EndExit?
  }

  lemma NativeStepKeeps(s: State, a: Action, slots: nat)
    requires Inv(s, slots) && NativeStep(a)
    ensures Good(Step(s, a), slots)
  {
    match a
    case CallRun(cpu, image) => CallRunKeeps(s, cpu, image, slots);
    case CallNative => CallNativeKeeps(s, slots);
    case FireEvent => FireEventKeeps(s, slots);
    case Hook(enable) => HookKeeps(s, enable, slots);
    case BeginCodeRange => BeginCodeRangeKeeps(s, slots);
  }

  lemma UnwindingKeeps(s: State, a: Action, slots: nat)
    requires Inv(s, slots) && Unwinds(a) && !ExitsWithoutImage(s, a)
    ensures Good(Step(s, a), slots)
  {
    match a
    case ReturnFromNative => ReturnFromNativeKeeps(s, slots);
    case ExitImage(record) => ExitImageKeeps(s, record, slots);
    case LongJump(depth) => LongJumpKeeps(s, depth, slots);
    case ReturnFromEvent => ReturnFromEventKeeps(s, slots);
    case FreeSelf => FreeSelfKeeps(s, slots);
    case EndExit => EndExitKeeps(s, slots);
  }

  lemma ActivationStepKeeps(s: State, a: Action, slots: nat)
    requires Inv(s, slots) && !NativeStep(a) && !Unwinds(a)
    ensures Good(Step(s, a), slots)
  {
    match a
    case EnterCritical => EnterKeepsInv(s, slots);
    case EndSection => EndSectionKeeps(s, slots);
    case CaptureEngine(args) => CaptureKeepsInv(s, args, slots);
    case BeginSlice => BeginSliceKeeps(s, slots);
    case Slice(regs) => SliceKeeps(s, regs, slots);
    case EndSlice(reason) => EndSliceKeeps(s, reason, slots);
    case FreeLeaked => FreeLeakedKeeps(s, slots);
    case ResumeThunk(value) => ResumeKeeps(s, value, slots);
    case Finish => FinishKeeps(s, slots);
    case LeaveCritical => LeaveKeepsInv(s, slots);
  }

  lemma StepKeeps(s: State, a: Action, slots: nat)
    requires Inv(s, slots) && !ExitsWithoutImage(s, a)
    ensures Good(Step(s, a), slots)
  {
    if NativeStep(a) {
      NativeStepKeeps(s, a, slots);
    } else if Unwinds(a) {
      UnwindingKeeps(s, a, slots);
    } else {
      ActivationStepKeeps(s, a, slots);
    }
  }

  lemma InitGood(slots: nat, initial: PerCpu<Regs>, magic: Word, hw: bool)
    ensures Inv(Init(slots, initial, magic, hw), slots)
  {
    var s := Init(slots, initial, magic, hw);
    forall c, id ensures Conserved(s.core, s.control, slots, c, id) && Conserved(s.core, [], slots, c, id) {
      FreshSlots(slots, id);
      InFlightPushed([], s.control[0], c, id);
      assert [] + [s.control[0]] == s.control;
    }
    assert s.control[..0] == [];
    PreservedNow(s.core);
  }

  lemma MoveKeeps(s: State, a: Action, s': State, slots: nat)
    requires Inv(s, slots) && Moves(s, a, s')
    ensures Inv(s', slots)
  {
    ExitWithoutImageFails(s, a);
    StepKeeps(s, a, slots);
  }

  lemma {:induction false} RunKeeps(states: seq<State>, actions: seq<Action>, i: nat, slots: nat)
    requires IsRun(states, actions, slots) && i <= |actions|
    ensures Inv(states[i], slots)
  {
    if i == 0 {
      var initial: PerCpu<Regs>, magic: Word, hw: bool :| states[0] == Init(slots, initial, magic, hw);
      InitGood(slots, initial, magic, hw);
    } else {
      RunKeeps(states, actions, i - 1, slots);
      MoveKeeps(states[i - 1], actions[i - 1], states[i], slots);
    }
  }

  lemma ReachableInv(s: State, slots: nat)
    requires Reachable(s, slots)
    ensures Inv(s, slots)
  {
    var states, actions :| IsRun(states, actions, slots) && states[|actions|] == s;
    RunKeeps(states, actions, |actions|, slots);
  }

  /** Every moment of a run is reachable. */
  lemma RunReaches(states: seq<State>, actions: seq<Action>, i: nat, slots: nat)
    requires IsRun(states, actions, slots) && i <= |actions|
    ensures Reachable(states[i], slots)
  {
    RunKeeps(states, actions, i, slots);
    assert IsRun(states[..i + 1], actions[..i], slots);
  }

  /** So is what one more step leads to. */
  lemma StepReaches(s: State, a: Action, s': State, slots: nat)
    requires Reachable(s, slots) && Moves(s, a, s')
    ensures Reachable(s', slots)
  {
    var states, actions :| IsRun(states, actions, slots) && states[|actions|] == s;
    var states', actions' := states + [s'], actions + [a];
    forall i {:trigger states'[i], actions'[i]} | 0 <= i < |actions'|
      ensures Moves(states'[i], actions'[i], states'[i + 1])
    {
      if i < |actions| {
        assert Moves(states[i], actions[i], states[i + 1]);
      }
    }
    assert IsRun(states', actions', slots);
    StaysNonEmpty(s, a, s', slots);
  }

  lemma StaysNonEmpty(s: State, a: Action, s': State, slots: nat)
    requires Reachable(s, slots) && Moves(s, a, s')
    ensures s'.control != []
  {
    ReachableInv(s, slots);
    MoveKeeps(s, a, s', slots);
  }

  /** The parts of the invariant theorems mostly need. */
  lemma ReachableShape(s: State, slots: nat)
    requires Reachable(s, slots)
    ensures Chained(s.control) && TopOk(s)
  {
    ReachableInv(s, slots);
  }

  lemma ReachableList(s: State, slots: nat)
    requires Reachable(s, slots)
    ensures ListOk(s.core)
  {
    ReachableInv(s, slots);
  }

  lemma RunChained(states: seq<State>, actions: seq<Action>, i: nat, slots: nat)
    requires IsRun(states, actions, slots) && i <= |actions|
    ensures Chained(states[i].control) && ListOk(states[i].core)
  {
    RunKeeps(states, actions, i, slots);
  }

  lemma ExitWithoutImageFails(s: State, a: Action)
    requires s.control != []
    ensures ExitsWithoutImage(s, a) ==> Step(s, a) == Fault(NoImageListed)
  {
    var p := InnermostImage(s.core.list);
    assert p.Some? ==> s.core.list[p.value] in s.core.list;
  }

  /**
   * A run, however it nests, leaks, long-jumps or is interrupted, goes on to fail an assertion
   * exactly when emulated code exits a started image while no image is listed, and then it is the
   * assertion of CpuExitImage.
   */
  lemma AssertionsFireIff(s: State, a: Action, slots: nat)
    requires Reachable(s, slots)
    ensures Step(s, a).Fault? <==> ExitsWithoutImage(s, a)
    ensures Step(s, a).Fault? ==> Step(s, a).why == NoImageListed
  {
    ReachableInv(s, slots);
    ExitWithoutImageFails(s, a);
    if !ExitsWithoutImage(s, a) {
      StepKeeps(s, a, slots);
    }
  }

  // ----- what the assertions say, of the states in which they are reached -----

  /**
   * A leaving context is on top and its counter stays non-negative; a context is freed without a
   * snapshot and only if it is not free already.
   */
  lemma LeavesAndFreesSafely(s: State, a: Action, slots: nat)
    requires Reachable(s, slots) && Step(s, a).Next?
    ensures a.LeaveCritical? ==> OwnsHead(s.core, Top(s)) && Step(s, a).s.core.count.Get(Top(s).cpu) >= 0
    ensures a.FreeSelf? ==> Top(s).phase.own.saved.None? && Top(s).phase.own.id !in s.core.free.Get(Top(s).phase.own.cpu)
    ensures a.FreeLeaked? ==> var x := Top(s).phase.chain[|Top(s).phase.chain| - 1]; x.saved.None? && x.id !in s.core.free.Get(x.cpu)
  {
    ReachableInv(s, slots);
    var t := Top(s);
    if a.LeaveCritical? {
      TopOwnsHead(s, slots);
      LeaveFrame(s, slots);
    } else if a.FreeSelf? || a.FreeLeaked? {
      FlightNotFree(s, slots, if a.FreeSelf? then t.phase.own else t.phase.chain[|t.phase.chain| - 1]);
      assert FrameOk(s.core, s.control[|s.control| - 1]);
    }
  }

  /**
   * Slices end with interrupts off, neither a slice nor a code-range change begins while one is open,
   * and sections end inside sections.
   */
  lemma SectionsFit(s: State, a: Action, slots: nat)
    requires Reachable(s, slots) && Step(s, a).Next?
    ensures a.EndSlice? ==> !s.core.irq.hw
    ensures a.BeginSlice? || a.BeginCodeRange? ==> !JitActive(s.control)
    ensures a.EndSection? || a.EndSlice? ==> s.core.irq.depth > 0
  {
    ReachableShape(s, slots);
    JitOnlyOnTop(s.control);
  }

  /** A repair finds its context on the list, and both counters stay non-negative. */
  lemma RepairsSafely(s: State, a: Action, slots: nat)
    requires Reachable(s, slots) && Step(s, a).Next? && (a.ReturnFromNative? || a.ExitImage?)
    ensures Step(s, a).s.core.count.x64 >= 0 && Step(s, a).s.core.count.aarch64 >= 0
    ensures a.ReturnFromNative? ==> var f := s.control[|s.control| - 2]; Find(s.core.list, f.cpu, f.id) < |s.core.list|
  {
    var s' := Step(s, a).s;
    StepReaches(s, a, s', slots);
    ReachableList(s', slots);
    assert s'.core.count.Get(X64) == Count(s'.core.list, X64);
    assert s'.core.count.Get(AArch64) == Count(s'.core.list, AArch64);
    if a.ReturnFromNative? {
      ReachableInv(s, slots);
      BackInThunk(s, slots);
      FindsOwn(s.(control := Popped(s)), slots, s.control[|s.control| - 2]);
    }
  }

  // ----- progress -----

  /** What an activation on top of the control stack does next; reading arguments and values from outside. */
  function Turn(f: Frame, args: Args, value: Word): Action
    requires f.Run? && !f.phase.InNative?
  {
    match f.phase
    case Allocated => EnterCritical
    case Linked => CaptureEngine(args)
    case Ready => BeginSlice
    case InJit => EndSlice(Continue)
    case Stopped(reason) => if reason == CallToNative then CallNative else Finish
    case Freeing(chain, _) => if chain == [] then ResumeThunk(value) else FreeLeaked
    case Finished => LeaveCritical
    case Left(_) => FreeSelf
    case ExitFreeing(chain) => if chain == [] then EndExit else FreeLeaked
    case _ => EndSection
  }

  /** A slice that is to continue goes on with another one instead of stopping. */
  predicate Proper(f: Frame) { f.Run? && f.phase.Stopped? ==> f.phase.reason != Continue }

  ghost predicate AllProper(control: seq<Frame>) { forall f <- control :: Proper(f) }

  lemma NativeStepStaysProper(s: State, a: Action, s': State)
    requires Moves(s, a, s') && AllProper(s.control) && NativeStep(a)
    ensures AllProper(s'.control)
  {
  }

  lemma UnwindingStaysProper(s: State, a: Action, s': State)
    requires Moves(s, a, s') && AllProper(s.control) && Unwinds(a)
    ensures AllProper(s'.control)
  {
  }

  lemma ActivationStaysProper(s: State, a: Action, s': State)
    requires Moves(s, a, s') && AllProper(s.control) && !NativeStep(a) && !Unwinds(a)
    ensures AllProper(s'.control)
  {
  }

  lemma {:induction false} RunStaysProper(states: seq<State>, actions: seq<Action>, j: nat, slots: nat)
    requires IsRun(states, actions, slots) && j <= |actions|
    ensures AllProper(states[j].control)
  {
    if j > 0 {
      RunStaysProper(states, actions, j - 1, slots);
      var s, a, s' := states[j - 1], actions[j - 1], states[j];
      if NativeStep(a) {
        NativeStepStaysProper(s, a, s');
      } else if Unwinds(a) {
        UnwindingStaysProper(s, a, s');
      } else {
        ActivationStaysProper(s, a, s');
      }
    }
  }

  lemma ReachableProper(s: State, slots: nat)
    requires Reachable(s, slots)
    ensures AllProper(s.control)
  {
    var states, actions :| IsRun(states, actions, slots) && states[|actions|] == s;
    RunStaysProper(states, actions, |actions|, slots);
  }

  lemma TurnFits(s: State, args: Args, value: Word)
    requires s.control != [] && Proper(Top(s)) && TopOk(s) && Top(s).Run?
    ensures !Step(s, Turn(Top(s), args, value)).Disabled?
  {
  }

  /**
   * No activation gets stuck: whatever phase it is in when it is on top, its next step of the
   * protocol is possible. Together with AssertionsFireIff: it succeeds.
   */
  lemma ActivationNeverStuck(s: State, args: Args, value: Word, slots: nat)
    requires Reachable(s, slots) && Top(s).Run?
    ensures !Top(s).phase.InNative? && Step(s, Turn(Top(s), args, value)).Next?
  {
    ReachableShape(s, slots);
    ReachableProper(s, slots);
    TurnFits(s, args, value);
    AssertionsFireIff(s, Turn(Top(s), args, value), slots);
  }

  /**
   * Nor does native code: outside sections of its own it can start a run if a slot is free, return to
   * its caller, or long-jump to any live frame that is not an event handler's or below one.
   */
  lemma NativeNeverStuck(s: State, cpu: Cpu, image: Option<nat>, d: nat, slots: nat)
    requires Reachable(s, slots) && Top(s).Native?
    ensures Top(s).busy ==> Step(s, EndSection).Next?
    ensures !Top(s).busy ==>
              && (Top(s).origin == Called ==> Step(s, ReturnFromNative).Next?)
              && (Top(s).origin == Event ==> Step(s, ReturnFromEvent).Next?)
              && ((image.Some? ==> image.value !in s.buffers) && s.core.free.Get(cpu) != [] ==>
                    Step(s, CallRun(cpu, image)).Next? && |Step(s, CallRun(cpu, image)).s.control| == |s.control| + 1)
              && (d < |s.control| && s.control[d].Native? && s.control[d].origin != Event && NoEventAbove(s.control, d) ==>
                    Step(s, LongJump(d)).Next? && Step(s, LongJump(d)).s.control == s.control[..d + 1])
  {
    ReachableShape(s, slots);
    AssertionsFireIff(s, EndSection, slots);
    AssertionsFireIff(s, ReturnFromNative, slots);
    if !Top(s).busy && Top(s).origin == Called {
      assert LinkAt(s.control, |s.control| - 1);
    }
  }

  // ----- list, counters and pools agree -----

  /**
   * In every reachable state each counter is the number of its CPU's contexts on the list, the
   * counters add up to the list length, and each pool slot is exactly one of: free, listed, or
   * held by an activation that is about to list or free it. Slots outside the pool never appear.
   */
  lemma ThreeWayAgreement(s: State, slots: nat, c: Cpu, id: nat)
    requires Reachable(s, slots)
    ensures s.core.count.Get(c) == Count(s.core.list, c) >= 0
    ensures s.core.count.x64 + s.core.count.aarch64 == |s.core.list|
    ensures multiset(s.core.free.Get(c))[id] + Holds(s.core.list, c, id) + InFlight(s.control, c, id) ==
            if id < slots then 1 else 0
    ensures forall p, q :: 0 <= p < q < |s.core.list| ==>
              s.core.list[p].id != s.core.list[q].id || s.core.list[p].cpu != s.core.list[q].cpu
  {
    ReachableInv(s, slots);
    CountsAddUp(s.core.list);
    assert s.core.count.Get(X64) == Count(s.core.list, X64);
    assert s.core.count.Get(AArch64) == Count(s.core.list, AArch64);
    assert Conserved(s.core, s.control, slots, c, id);
    forall p, q | 0 <= p < q < |s.core.list|
      ensures s.core.list[p].id != s.core.list[q].id || s.core.list[p].cpu != s.core.list[q].cpu
    {
      var x := s.core.list[p];
      assert Conserved(s.core, s.control, slots, x.cpu, x.id);
      if IsSlot(s.core.list[q], x.cpu, x.id) {
        HoldsTwice(s.core.list, p, q, x.cpu, x.id);
      }
    }
  }

  // ----- interrupts as clients see them -----

  /** What the last client to set the interrupt state asked for. */
  function LastHook(actions: seq<Action>, initially: bool): bool {
    if actions == [] then initially
    else
      var a := actions[|actions| - 1];
      if a.Hook? then a.enable else LastHook(actions[..|actions| - 1], initially)
  }

  lemma OthersKeepObserved(s: State, a: Action, s': State)
    requires Moves(s, a, s') && !a.Hook? && TopOk(s) && NativeStep(a)
    ensures Observed(s'.core.irq) == Observed(s.core.irq)
  {
  }

  lemma UnwindingKeepsObserved(s: State, a: Action, s': State)
    requires Moves(s, a, s') && TopOk(s) && Unwinds(a)
    ensures Observed(s'.core.irq) == Observed(s.core.irq)
  {
  }

  lemma ActivationKeepsObserved(s: State, a: Action, s': State)
    requires Moves(s, a, s') && TopOk(s) && !NativeStep(a) && !Unwinds(a)
    ensures Observed(s'.core.irq) == Observed(s.core.irq)
  {
  }

  /** One step: only a client changes what clients see, to what it asked for. */
  lemma StepObserved(s: State, a: Action, s': State)
    requires Moves(s, a, s') && TopOk(s)
    ensures Observed(s'.core.irq) == if a.Hook? then a.enable else Observed(s.core.irq)
  {
    if a.Hook? {
    } else if NativeStep(a) {
      OthersKeepObserved(s, a, s');
    } else if Unwinds(a) {
      UnwindingKeepsObserved(s, a, s');
    } else {
      ActivationKeepsObserved(s, a, s');
    }
  }

  /**
   * Interrupt virtualisation over whole runs: whatever sections the driver's steps open and close,
   * clients see what the last of them set, or the hardware flag the driver started with; outside
   * sections the hardware has that value, and inside it is off.
   */
  lemma {:induction false} InterruptsAsSet(states: seq<State>, actions: seq<Action>, j: nat, slots: nat)
    requires IsRun(states, actions, slots) && j <= |actions|
    ensures var irq, flag := states[j].core.irq, LastHook(actions[..j], states[0].core.irq.hw);
            && Observed(irq) == flag
            && (irq.depth == 0 ==> irq.hw == flag)
            && (irq.depth != 0 ==> irq.depth == 1 && !irq.hw)
  {
    RunReaches(states, actions, j, slots);
    SectionsAreExclusive(states[j], slots);
    if j > 0 {
      InterruptsAsSet(states, actions, j - 1, slots);
      RunReaches(states, actions, j - 1, slots);
      ReachableShape(states[j - 1], slots);
      assert Moves(states[j - 1], actions[j - 1], states[j]);
      StepObserved(states[j - 1], actions[j - 1], states[j]);
      assert actions[..j][..j - 1] == actions[..j - 1];
    }
  }

  // ----- the pools of a run -----

  /** What a step asks of CPU c's pool. */
  function Requests(s: State, a: Action, c: Cpu): seq<ObjectPool.Request>
    requires s.control != []
  {
    var t := Top(s);
    if a.CallRun? && a.cpu == c && StepCallRun(s, a.cpu, a.image).Next? then [ObjectPool.Alloc]
    else if a.FreeLeaked? && t.Run? && (t.phase.Freeing? || t.phase.ExitFreeing?) && t.phase.chain != [] then
      var x := t.phase.chain[|t.phase.chain| - 1];
      if x.cpu == c then [ObjectPool.Free(x.id)] else []
    else if a.FreeSelf? && t.Run? && t.phase.Left? && t.phase.own.cpu == c then [ObjectPool.Free(t.phase.own.id)]
    else []
  }

  /** Everything a run has asked of CPU c's pool by moment j. */
  ghost function PoolRequests(states: seq<State>, actions: seq<Action>, j: nat, c: Cpu): seq<ObjectPool.Request>
    requires j <= |actions| < |states|
  {
    if j == 0 || states[j - 1].control == [] then []
    else PoolRequests(states, actions, j - 1, c) + Requests(states[j - 1], actions[j - 1], c)
  }

  lemma OneRequest(queue: seq<nat>, r: ObjectPool.Request)
    ensures ObjectPool.QueueAfter(queue, [r]) ==
            if r.Alloc? then (if queue == [] then [] else queue[1..]) else queue + [r.slot]
  {
    assert [r][1..] == [];
  }

  lemma CallUsesPool(s: State, cpu: Cpu, image: Option<nat>, s': State, c: Cpu)
    requires Moves(s, CallRun(cpu, image), s')
    ensures s'.core.free.Get(c) == ObjectPool.QueueAfter(s.core.free.Get(c), Requests(s, CallRun(cpu, image), c))
  {
    OneRequest(s.core.free.Get(c), ObjectPool.Alloc);
  }

  lemma FreeUsesPool(s: State, a: Action, s': State, c: Cpu)
    requires Moves(s, a, s') && (a.FreeLeaked? || a.FreeSelf?)
    ensures s'.core.free.Get(c) == ObjectPool.QueueAfter(s.core.free.Get(c), Requests(s, a, c))
  {
    var t := Top(s);
    var x := if a.FreeSelf? then t.phase.own else t.phase.chain[|t.phase.chain| - 1];
    OneRequest(s.core.free.Get(c), ObjectPool.Free(x.id));
  }

  lemma StepUsesPool(s: State, a: Action, s': State, c: Cpu)
    requires Moves(s, a, s')
    ensures s'.core.free.Get(c) == ObjectPool.QueueAfter(s.core.free.Get(c), Requests(s, a, c))
  {
    if a.CallRun? {
      CallUsesPool(s, a.cpu, a.image, s', c);
    } else if a.FreeLeaked? || a.FreeSelf? {
      FreeUsesPool(s, a, s', c);
    }
  }

  lemma {:induction false} QueueAfterBoth(queue: seq<nat>, first: seq<ObjectPool.Request>, rest: seq<ObjectPool.Request>)
    ensures ObjectPool.QueueAfter(queue, first + rest) == ObjectPool.QueueAfter(ObjectPool.QueueAfter(queue, first), rest)
    decreases |first|
  {
    if first == [] {
      assert first + rest == rest;
    } else {
      assert (first + rest)[1..] == first[1..] + rest;
      QueueAfterBoth(ObjectPool.QueueAfter(queue, first[..1]), first[1..], rest);
      OneRequest(queue, first[0]);
      assert first[..1] == [first[0]];
    }
  }

  lemma StepExtends(queue: seq<nat>, asked: seq<ObjectPool.Request>, s: State, a: Action, s': State, c: Cpu)
    requires Moves(s, a, s') && s.core.free.Get(c) == ObjectPool.QueueAfter(queue, asked)
    ensures s'.core.free.Get(c) == ObjectPool.QueueAfter(queue, asked + Requests(s, a, c))
  {
    StepUsesPool(s, a, s', c);
    QueueAfterBoth(queue, asked, Requests(s, a, c));
  }

  /**
   * The free queue of each CPU in a run is that of the object pool after the run's requests: with
   * PoolIsFifo, the slot an activation gets is the one that has been free longest.
   */
  lemma {:induction false} RunUsesPool(states: seq<State>, actions: seq<Action>, j: nat, c: Cpu, slots: nat)
    requires IsRun(states, actions, slots) && j <= |actions|
    ensures states[j].core.free.Get(c) == ObjectPool.QueueAfter(seq(slots, i => i), PoolRequests(states, actions, j, c))
  {
    if j > 0 {
      RunUsesPool(states, actions, j - 1, c, slots);
      assert Moves(states[j - 1], actions[j - 1], states[j]);
      StepExtends(seq(slots, i => i), PoolRequests(states, actions, j - 1, c), states[j - 1], actions[j - 1], states[j], c);
    }
  }

  // ----- JIT exclusivity -----

  /** Only the newest frame can be inside a section. */
  lemma NoSectionBelow(control: seq<Frame>, i: nat)
    requires Chained(control) && i < |control| - 1
    ensures !Critical(control[i])
  {
    assert LinkAt(control, i + 1);
  }

  /**
   * Sections never nest, real interrupts are off inside them, only the newest frame can be in
   * one, and while one is open no event fires, no run starts, no range changes, no jump leaves it.
   */
  lemma SectionsAreExclusive(s: State, slots: nat)
    requires Reachable(s, slots)
    ensures s.core.irq.depth <= 1 && (s.core.irq.depth == 1 ==> !s.core.irq.hw)
    ensures s.core.irq.depth == 1 <==> exists i :: 0 <= i < |s.control| && Critical(s.control[i])
    ensures forall i :: 0 <= i < |s.control| && Critical(s.control[i]) ==> i == |s.control| - 1
    ensures s.core.irq.depth == 1 ==> forall a :: Step(s, a).Next? ==>
              a.EndSection? || a.Slice? || a.EndSlice? || a.Hook?
  {
    ReachableShape(s, slots);
    forall i: nat | i < |s.control| - 1 ensures !Critical(s.control[i]) {
      NoSectionBelow(s.control, i);
    }
    assert s.core.irq.depth == 1 ==> Critical(s.control[|s.control| - 1]);
    forall a | s.core.irq.depth == 1 && Step(s, a).Next?
      ensures a.EndSection? || a.Slice? || a.EndSlice? || a.Hook?
    {
      OnlySectionSteps(s, a);
    }
  }

  lemma OnlySectionSteps(s: State, a: Action)
    requires s.control != [] && TopOk(s) && s.core.irq.depth == 1 && Step(s, a).Next?
    ensures a.EndSection? || a.Slice? || a.EndSlice? || a.Hook?
  {
  }

  /**
   * Code-range changes run in a section of their own, with real interrupts off and no JIT slice open
   * anywhere; closing it gives the interrupts back.
   */
  lemma CodeRangeInSection(s: State, slots: nat)
    requires Reachable(s, slots) && Top(s).Native? && !Top(s).busy
    ensures Step(s, BeginCodeRange).Next?
    ensures var s1 := Step(s, BeginCodeRange).s;
            && s1.core.irq.depth == 1 && !s1.core.irq.hw && !JitActive(s1.control) && s1.control != [] && Top(s1).busy
            && Step(s1, EndSection) == Next(s.(core := s.core.(irq := End(Begin(s.core.irq)))))
            && End(Begin(s.core.irq)).depth == 0 && End(Begin(s.core.irq)).hw == s.core.irq.hw
  {
    ReachableShape(s, slots);
    JitOnlyOnTop(s.control);
    CodeRangeBegins(s);
  }

  lemma CodeRangeBegins(s: State)
    requires s.control != [] && Top(s).Native? && !Top(s).busy && !JitActive(s.control) && s.core.irq.depth == 0
    ensures var s1 := s.(core := s.core.(irq := Begin(s.core.irq)), control := SetTop(s, Top(s).(busy := true)));
            && Step(s, BeginCodeRange) == Next(s1) && !JitActive(s1.control) && Top(s1).busy
            && Step(s1, EndSection) == Next(s.(core := s.core.(irq := End(Begin(s.core.irq)))))
  {
    var control := SetTop(s, Top(s).(busy := true));
    forall i | 0 <= i < |control| ensures !(control[i].Run? && control[i].phase.InJit?) {
      assert i < |s.control| - 1 ==> control[i] == s.control[i];
    }
    assert control[..|control| - 1] + [Top(s)] == s.control;
  }

  /** The identities on the list, without the snapshots. */
  function Names(list: seq<Ctx>): seq<(Cpu, nat)> {
    seq(|list|, i requires 0 <= i < |list| => (list[i].cpu, list[i].id))
  }

  predicate EditsList(a: Action) {
    a.EnterCritical? || a.LeaveCritical? || a.ReturnFromNative? || a.ExitImage?
  }

  lemma SnapshotsOnly(core: Core, args: Args)
    requires core.list != []
    ensures Names(Capture(core, args).list) == Names(core.list)
    ensures Names(Restore(core).list) == Names(core.list)
  {
  }

  lemma OthersKeepNames(s: State, a: Action)
    requires s.control != [] && Step(s, a).Next? && !EditsList(a)
    ensures Names(Step(s, a).s.core.list) == Names(s.core.list)
  {
    if a.CaptureEngine? {
      SnapshotsOnly(s.core, a.args);
    } else if a.Finish? {
      var t := Top(s);
      SnapshotsOnly(Write(s.core, PostRegs(t.cpu, s.core.engine.Get(t.cpu))), seq(MAX_ARGS, _ => 0));
      SnapshotsOnly(s.core, seq(MAX_ARGS, _ => 0));
    }
  }

  lemma EditsEndInSection(s: State, a: Action)
    requires s.control != [] && Step(s, a).Next? && EditsList(a) && Step(s, a).s.control != []
    ensures Critical(Top(Step(s, a).s)) || Step(s, a).s.core.list == s.core.list
  {
  }

  /** The list is only ever edited inside a section, with real interrupts off. */
  lemma ListEditedInSection(s: State, a: Action, slots: nat)
    requires Reachable(s, slots) && Step(s, a).Next?
    ensures Names(Step(s, a).s.core.list) != Names(s.core.list) ==>
              Step(s, a).s.core.irq.depth == 1 && !Step(s, a).s.core.irq.hw
  {
    if EditsList(a) {
      ReachableInv(s, slots);
      MoveKeeps(s, a, Step(s, a).s, slots);
      EditsEndInSection(s, a);
    } else {
      OthersKeepNames(s, a);
    }
  }

  /** Emulated code runs only at depth 1 with interrupts off, in the newest frame. */
  lemma JitRunsAlone(s: State, regs: Regs, slots: nat)
    requires Reachable(s, slots) && Step(s, Slice(regs)).Next?
    ensures s.core.irq.depth == 1 && !s.core.irq.hw
    ensures forall i :: 0 <= i < |s.control| && s.control[i].Run? && s.control[i].phase.InJit? ==>
              i == |s.control| - 1
  {
    SectionsAreExclusive(s, slots);
  }
}

/**
 * The run protocol as a step machine. A native control stack, newest frame last, says who is
 * executing; each step is one critical section boundary, one list operation, one slice of JIT
 * execution, or one call, return or long jump. ASSERT failures of the source are Fault outcomes.
 */
module Machine {
  import opened Words
  import opened Interrupts
  import opened Thunks
  import opened RunModel

  /** Why uc_emu_start came back: CpuExitReason. */
  datatype Reason = Continue | CallToNative | ReturnToNative | FailedEmu

  /** Where an activation is between CpuAllocContext and CpuFreeContext. */
  datatype Phase =
    | Allocated
    | Entering                                    // section of CpuEnterCritical
    | Linked                                      // on the list, engine not captured yet
    | Ready                                       // between JIT slices
    | InJit                                       // section around uc_emu_start
    | Stopped(reason: Reason)                     // slice over, reason not acted on yet
    | InNative                                    // inside NativeThunk's call
    | Repairing(chain: seq<Ctx>, entry: Core)     // section of CpuCompressLeakedContexts
    | Freeing(chain: seq<Ctx>, entry: Core)       // its freeing loop, and the end of the thunk
    | Finished                                    // engine given back
    | Leaving(own: Ctx)                           // section of CpuLeaveCritical
    | Left(own: Ctx)                              // off the list, not freed yet
    | ExitRepairing(chain: seq<Ctx>)              // section, after CpuRunImage's SetJump returned again
    | ExitFreeing(chain: seq<Ctx>)

  /** How a stretch of native code came to run. */
  datatype Origin = Base | Called | Event

  /**
   * at is a history variable, written once when the frame is pushed: the shared state at that
   * moment. busy marks a native frame inside a critical section of its own (a code-range change).
   */
  datatype Frame =
    | Native(origin: Origin, busy: bool, at: Core)
    | Run(id: nat, cpu: Cpu, image: Option<nat>, phase: Phase, at: Core)

  /** buffers: for each image record, the control depth its ImageExitJumpBuffer points at. */
  datatype State = State(core: Core, control: seq<Frame>, buffers: map<nat, nat>)

  datatype Assertion =
    | SectionNotOpen       // CriticalEnd outside a section
    | InterruptsOn         // ASSERT (!GetInterruptState ())
    | EngineReentered      // uc_emu_start or uc_mem_protect inside a JIT slice
    | TopMismatch          // ASSERT (mTopContext == Context)
    | NegativeCount        // ASSERT (Cpu->Contexts >= 0)
    | NoImageListed        // ASSERT (Context) after the search of CpuExitImage
    | NotOnList            // the compress loop would run off the list
    | UnappliedState       // ASSERT (Context->Flags == 0)
    | FreedTwice           // ASSERT (IsListEmpty (&Object->Link))

  datatype Outcome = Next(s: State) | Disabled | Fault(why: Assertion)

  datatype Action =
    | CallRun(cpu: Cpu, image: Option<nat>)
    | EnterCritical
    | EndSection
    | CaptureEngine(args: Args)
    | BeginSlice
    | Slice(regs: Regs)
    | EndSlice(reason: Reason)
    | CallNative
    | ReturnFromNative
    | FreeLeaked
    | ResumeThunk(value: Word)
    | Finish
    | LeaveCritical
    | FreeSelf
    | EndExit
    | LongJump(depth: nat)
    | ExitImage(record: nat)
    | FireEvent
    | ReturnFromEvent
    | Hook(enable: bool)
    | BeginCodeRange

  // ----- phases -----

  /** The activation's context is on the list. */
  predicate OnList(p: Phase) {
    !(p.Allocated? || p.Leaving? || p.Left? || p.ExitRepairing? || p.ExitFreeing?)
  }

  /** The activation has captured the engine and not given it back. */
  predicate Started(p: Phase) { OnList(p) && !(p.Entering? || p.Linked? || p.Finished?) }

  /** The activation holds a critical section open. */
  predicate InSection(p: Phase) {
    p.Entering? || p.InJit? || p.Repairing? || p.Leaving? || p.ExitRepairing?
  }

  predicate Critical(f: Frame) { if f.Native? then f.busy else InSection(f.phase) }

  /** Contexts off the list that this activation still has to free, or to put on the list. */
  function Flight(f: Frame): seq<Ctx> {
    if f.Native? then []
    else match f.phase
      case Allocated => [Ctx(f.id, f.cpu, f.image, false, None)]
      case Repairing(chain, _) => chain
      case Freeing(chain, _) => chain
      case Leaving(own) => [own]
      case Left(own) => [own]
      case ExitRepairing(chain) => chain
      case ExitFreeing(chain) => chain
      case _ => []
  }

  predicate Mending(f: Frame) { f.Run? && (f.phase.Repairing? || f.phase.Freeing?) }

  // ----- steps -----

  function Top(s: State): Frame
    requires s.control != []
  {
    s.control[|s.control| - 1]
  }

  function SetTop(s: State, f: Frame): seq<Frame>
    requires s.control != []
  {
    s.control[..|s.control| - 1] + [f]
  }

  function Popped(s: State): seq<Frame>
    requires s.control != []
  {
    s.control[..|s.control| - 1]
  }

  /** CriticalEnd, or the failure of its assertion. */
  function CloseSection(s: State, f: Frame): Outcome
    requires s.control != []
  {
    if s.core.irq.depth == 0 then Fault(SectionNotOpen)
    else Next(s.(core := s.core.(irq := End(s.core.irq)), control := SetTop(s, f)))
  }

  function Goto(f: Frame, p: Phase): Frame
    requires f.Run?
  {
    f.(phase := p)
  }

  /** CpuRunFunc and CpuRunImage: allocate, and for an image record the jump buffer. */
  function StepCallRun(s: State, cpu: Cpu, image: Option<nat>): Outcome
    requires s.control != []
  {
    var t := Top(s);
    if !t.Native? || t.busy || (image.Some? && image.value in s.buffers) then Disabled
    else if s.core.free.Get(cpu) == [] then Next(s)
    else
      var f := Run(s.core.free.Get(cpu)[0], cpu, image, Allocated, s.core);
      Next(State(TakeSlot(s.core, cpu), s.control + [f],
                 if image.Some? then s.buffers[image.value := |s.control|] else s.buffers))
  }

  function StepEnter(s: State): Outcome
    requires s.control != []
  {
    var t := Top(s);
    if !(t.Run? && t.phase.Allocated?) then Disabled
    else Next(s.(core := Enter(s.core, Ctx(t.id, t.cpu, t.image, false, None)),
                 control := SetTop(s, Goto(t, Entering))))
  }

  /** The CriticalEnd that closes each of the sections the protocol opens. */
  function StepEndSection(s: State): Outcome
    requires s.control != []
  {
    var t := Top(s);
    if t.Native? then (if t.busy then CloseSection(s, t.(busy := false)) else Disabled)
    else match t.phase
      case Entering => CloseSection(s, Goto(t, Linked))
      case Repairing(chain, entry) => CloseSection(s, Goto(t, Freeing(chain, entry)))
      case Leaving(own) => CloseSection(s, Goto(t, Left(own)))
      case ExitRepairing(chain) => CloseSection(s, Goto(t, ExitFreeing(chain)))
      case _ => Disabled
  }

  function StepCapture(s: State, args: Args): Outcome
    requires s.control != []
  {
    var t := Top(s);
    if !(t.Run? && t.phase.Linked?) then Disabled
    else if s.core.list == [] then Fault(TopMismatch)
    else Next(s.(core := Capture(s.core, args), control := SetTop(s, Goto(t, Ready))))
  }

  predicate JitActive(control: seq<Frame>) {
    exists i :: 0 <= i < |control| && control[i].Run? && control[i].phase.InJit?
  }

  function StepBeginSlice(s: State): Outcome
    requires s.control != []
  {
    var t := Top(s);
    if !(t.Run? && t.phase.Ready?) then Disabled
    else if JitActive(s.control) then Fault(EngineReentered)
    else Next(s.(core := s.core.(irq := Begin(s.core.irq)), control := SetTop(s, Goto(t, InJit))))
  }

  function StepSlice(s: State, regs: Regs): Outcome
    requires s.control != []
  {
    var t := Top(s);
    if !(t.Run? && t.phase.InJit?) then Disabled
    else if s.core.list == [] then Fault(TopMismatch)
    else Next(s.(core := Write(s.core, regs)))
  }

  function StepEndSlice(s: State, reason: Reason): Outcome
    requires s.control != []
  {
    var t := Top(s);
    if !(t.Run? && t.phase.InJit?) then Disabled
    else if s.core.irq.hw then Fault(InterruptsOn)
    else CloseSection(s, Goto(t, if reason == Continue then Ready else Stopped(reason)))
  }

  function StepCallNative(s: State): Outcome
    requires s.control != []
  {
    var t := Top(s);
    if !(t.Run? && t.phase == Stopped(CallToNative)) then Disabled
    else Next(s.(control := SetTop(s, Goto(t, InNative)) + [Native(Called, false, s.core)]))
  }

  /** Does the newest context belong to this activation? */
  predicate OwnsHead(core: Core, f: Frame)
    requires f.Run?
  {
    core.list != [] && Head(core).id == f.id && Head(core).cpu == f.cpu
  }

  /** The age of the activation's context on the list; the list length when it is not there. */
  function Find(list: seq<Ctx>, c: Cpu, id: nat): (p: nat)
    ensures p <= |list|
    ensures p < |list| ==> IsSlot(list[p], c, id)
    ensures forall q {:trigger list[q]} :: p < q < |list| ==> !IsSlot(list[q], c, id)
    ensures p == |list| ==> forall q {:trigger list[q]} :: 0 <= q < |list| ==> !IsSlot(list[q], c, id)
  {
    if list == [] then 0
    else
      var n := |list| - 1;
      if IsSlot(list[n], c, id) then n
      else
        var p := Find(list[..n], c, id);
        if p == n then |list| else p
  }

  /** NativeThunkCheckLeakedContexts: nothing to do, or the section that unlinks what leaked. */
  function StepReturnFromNative(s: State): Outcome
    requires s.control != []
  {
    var t := Top(s);
    if !(t.Native? && t.origin == Called && !t.busy && |s.control| >= 2) then Disabled
    else
      var f := s.control[|s.control| - 2];
      if !f.Run? then Disabled
      else if OwnsHead(s.core, f) then
        Next(s.(control := s.control[..|s.control| - 2] + [Goto(f, Freeing([], t.at))]))
      else
        var k := Find(s.core.list, f.cpu, f.id);
        if k == |s.core.list| then Fault(NotOnList)
        else
          var core' := Compress(s.core, k + 1);
          if core'.count.x64 < 0 || core'.count.aarch64 < 0 then Fault(NegativeCount)
          else Next(s.(core := core', control := s.control[..|s.control| - 2] +
                         [Goto(f, Repairing(Idled(s.core.list[k + 1..]), t.at))]))
  }

  /** CpuFreeContext and ObjectFree. */
  function FreeContext(s: State, x: Ctx, control: seq<Frame>): Outcome {
    if x.saved.Some? then Fault(UnappliedState)
    else if x.id in s.core.free.Get(x.cpu) then Fault(FreedTwice)
    else Next(s.(core := PutSlot(s.core, x.cpu, x.id), control := control))
  }

  function Shortened(p: Phase, n: nat): Phase
    requires (p.Freeing? || p.ExitFreeing?) && n <= |p.chain|
  {
    match p
    case Freeing(chain, entry) => Freeing(chain[..n], entry)
    case ExitFreeing(chain) => ExitFreeing(chain[..n])
  }

  /** One turn of the freeing loop, newest context first. */
  function StepFreeLeaked(s: State): Outcome
    requires s.control != []
  {
    var t := Top(s);
    if !(t.Run? && (t.phase.Freeing? || t.phase.ExitFreeing?) && t.phase.chain != []) then Disabled
    else
      var n := |t.phase.chain| - 1;
      FreeContext(s, t.phase.chain[n], SetTop(s, Goto(t, Shortened(t.phase, n))))
  }

  function StepResume(s: State, value: Word): Outcome
    requires s.control != []
  {
    var t := Top(s);
    if !(t.Run? && t.phase.Freeing? && t.phase.chain == []) then Disabled
    else if s.core.list == [] then Fault(TopMismatch)
    else Next(s.(core := Write(s.core, NativeReturnRegs(t.cpu, s.core.engine.Get(t.cpu), value)),
                 control := SetTop(s, Goto(t, Ready))))
  }

  /** The post-thunk, unless emulation failed, and the restore. */
  function StepFinish(s: State): Outcome
    requires s.control != []
  {
    var t := Top(s);
    if !(t.Run? && t.phase.Stopped? && t.phase.reason in {ReturnToNative, FailedEmu}) then Disabled
    else if s.core.list == [] then Fault(TopMismatch)
    else
      var core1 := if t.phase.reason == FailedEmu then s.core
                   else Write(s.core, PostRegs(t.cpu, s.core.engine.Get(t.cpu)));
      Next(s.(core := Restore(core1), control := SetTop(s, Goto(t, Finished))))
  }

  function StepLeave(s: State): Outcome
    requires s.control != []
  {
    var t := Top(s);
    if !(t.Run? && t.phase.Finished?) then Disabled
    else if !OwnsHead(s.core, t) then Fault(TopMismatch)
    else if s.core.count.Get(t.cpu) - 1 < 0 then Fault(NegativeCount)
    else Next(s.(core := Leave(s.core), control := SetTop(s, Goto(t, Leaving(Head(s.core))))))
  }

  function StepFreeSelf(s: State): Outcome
    requires s.control != []
  {
    var t := Top(s);
    if !(t.Run? && t.phase.Left?) then Disabled else FreeContext(s, t.phase.own, Popped(s))
  }

  /** After an image exit nothing of the activation remains; native code goes on below. */
  function StepEndExit(s: State): Outcome
    requires s.control != []
  {
    var t := Top(s);
    if !(t.Run? && t.phase.ExitFreeing? && t.phase.chain == []) then Disabled
    else Next(s.(control := Popped(s)))
  }

  /** No event handler has its frame above depth d. */
  predicate NoEventAbove(control: seq<Frame>, d: nat) {
    forall i :: d < i < |control| ==> !(control[i].Native? && control[i].origin == Event)
  }

  /**
   * Native code long-jumps to a live native frame. An event handler jumps neither over what it
   * interrupted nor, in its own frame, over runs it started itself.
   */
  function StepLongJump(s: State, d: nat): Outcome
    requires s.control != []
  {
    var t := Top(s);
    if t.Native? && !t.busy && d < |s.control| && s.control[d].Native?
       && s.control[d].origin != Event && NoEventAbove(s.control, d)
    then Next(s.(control := s.control[..d + 1]))
    else Disabled
  }

  /** CpuExitImage's check: the record must be the one of the innermost image context. */
  predicate ExitAccepted(core: Core, record: nat) {
    var p := InnermostImage(core.list);
    p.Some? && core.list[p.value].image == Some(record)
  }

  /** The frame the image's jump buffer points at is still on the native stack. */
  predicate ExitTargetLive(s: State, record: nat) {
    record in s.buffers &&
    var d := s.buffers[record];
    d < |s.control| && s.control[d].Run? && s.control[d].image == Some(record) && NoEventAbove(s.control, d)
  }

  /**
   * gBS->Exit called by emulated code: reject, or long-jump into CpuRunImage and unlink its context
   * too. Only a record that was started has a handle, so that ImageFindByHandle finds it.
   */
  function StepExitImage(s: State, record: nat): Outcome
    requires s.control != []
  {
    var t := Top(s);
    if !(t.Native? && t.origin == Called && !t.busy) then Disabled
    else if record !in s.buffers then Next(s)
    else if InnermostImage(s.core.list).None? then Fault(NoImageListed)
    else if !ExitAccepted(s.core, record) then
      Next(s.(core := s.core.(irq := End(Begin(s.core.irq)))))
    else if !ExitTargetLive(s, record) then Disabled
    else
      var d := s.buffers[record];
      var f := s.control[d];
      var k := Find(s.core.list, f.cpu, f.id);
      if k == |s.core.list| then Fault(NotOnList)
      else
        var core' := Compress(s.core.(irq := End(Begin(s.core.irq))), k);
        if core'.count.x64 < 0 || core'.count.aarch64 < 0 then Fault(NegativeCount)
        else Next(s.(core := core', control := s.control[..d] +
                       [Goto(f, ExitRepairing(Idled(s.core.list[k..])))]))
  }

  /** Emulated code passes gBS->Exit the handle of a started image while no image is listed. */
  predicate ExitsWithoutImage(s: State, a: Action)
    requires s.control != []
  {
    && a.ExitImage? && Top(s).Native? && Top(s).origin == Called && !Top(s).busy
    && a.record in s.buffers && forall x <- s.core.list :: x.image.None?
  }

  /** An asynchronous event interrupts an activation; it needs real interrupts to be on. */
  function StepFireEvent(s: State): Outcome
    requires s.control != []
  {
    var t := Top(s);
    if t.Run? && s.core.irq.hw then Next(s.(control := s.control + [Native(Event, false, s.core)]))
    else Disabled
  }

  function StepReturnFromEvent(s: State): Outcome
    requires s.control != []
  {
    var t := Top(s);
    if t.Native? && t.origin == Event && !t.busy then Next(s.(control := Popped(s))) else Disabled
  }

  /** CpuRegisterCodeRange and CpuUnregisterCodeRange open a section and change protections. */
  function StepBeginCodeRange(s: State): Outcome
    requires s.control != []
  {
    var t := Top(s);
    if !t.Native? || t.busy then Disabled
    else if JitActive(s.control) then Fault(EngineReentered)
    else Next(s.(core := s.core.(irq := Begin(s.core.irq)), control := SetTop(s, t.(busy := true))))
  }

  function Step(s: State, a: Action): Outcome
    requires s.control != []
  {
    match a
    case CallRun(cpu, image) => StepCallRun(s, cpu, image)
    case EnterCritical => StepEnter(s)
    case EndSection => StepEndSection(s)
    case CaptureEngine(args) => StepCapture(s, args)
    case BeginSlice => StepBeginSlice(s)
    case Slice(regs) => StepSlice(s, regs)
    case EndSlice(reason) => StepEndSlice(s, reason)
    case CallNative => StepCallNative(s)
    case ReturnFromNative => StepReturnFromNative(s)
    case FreeLeaked => StepFreeLeaked(s)
    case ResumeThunk(value) => StepResume(s, value)
    case Finish => StepFinish(s)
    case LeaveCritical => StepLeave(s)
    case FreeSelf => StepFreeSelf(s)
    case EndExit => StepEndExit(s)
    case LongJump(depth) => StepLongJump(s, depth)
    case ExitImage(record) => StepExitImage(s, record)
    case FireEvent => StepFireEvent(s)
    case ReturnFromEvent => StepReturnFromEvent(s)
    case Hook(enable) => Next(s.(core := s.core.(irq := SetByClient(s.core.irq, enable))))
    case BeginCodeRange => StepBeginCodeRange(s)
  }

  // ----- runs -----

  /** A freshly started driver: empty list, every slot free, interrupts in any state. */
  function InitialCore(slots: nat, initial: PerCpu<Regs>, magic: Word, hw: bool): Core {
    var all := seq(slots, i => i);
    Core([], initial, PerCpu(0, 0), PerCpu(all, all), Irq(hw, 0, hw), initial, magic)
  }

  function Init(slots: nat, initial: PerCpu<Regs>, magic: Word, hw: bool): (s: State)
    ensures s.control != []
  {
    var core := InitialCore(slots, initial, magic, hw);
    State(core, [Native(Base, false, core)], map[])
  }

  /** One possible step. */
  predicate Moves(s: State, a: Action, s': State) { s.control != [] && Step(s, a) == Next(s') }

  /** A run of the driver: the states it goes through and the actions in between. */
  ghost predicate IsRun(states: seq<State>, actions: seq<Action>, slots: nat) {
    && |states| == |actions| + 1
    && (exists initial: PerCpu<Regs>, magic: Word, hw: bool :: states[0] == Init(slots, initial, magic, hw))
    && forall i {:trigger states[i], actions[i]} :: 0 <= i < |actions| ==> Moves(states[i], actions[i], states[i + 1])
  }

  ghost predicate Reachable(s: State, slots: nat) {
    s.control != [] && exists states, actions :: IsRun(states, actions, slots) && states[|actions|] == s
  }
}

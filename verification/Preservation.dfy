/** Every step of the run machine keeps the invariant and fails no assertion. */
module Preservation {
  import opened Words
  import opened Interrupts
  import opened Thunks
  import opened RunModel
  import opened Machine
  import opened Invariant

  // ----- rebuilding the invariant from its parts -----

  lemma LinkedPrefix(control: seq<Frame>, j: nat)
    requires Chained(control) && 0 < j <= |control|
    ensures Chained(control[..j])
  {
    forall i | 0 < i < j
      ensures LinkAt(control[..j], i)
    {
      assert LinkAt(control, i);
    }
  }

  lemma LinkedPush(control: seq<Frame>, f: Frame)
    requires Chained(control) && Link(control[|control| - 1], f)
    ensures Chained(control + [f])
  {
    var c' := control + [f];
    forall i | 0 < i < |c'|
      ensures LinkAt(c', i)
    {
      if i < |control| {
        assert LinkAt(control, i);
      }
    }
  }

  /** Frames whose heights lie at or below k are as good as before when nothing below k changed. */
  lemma FramesBelow(s: State, slots: nat, core': Core, k: nat, j: nat)
    requires Body(s, slots) && SameBelow(s.core, core', k) && j <= |s.control|
    requires forall i {:trigger s.control[i]} :: 0 <= i < j ==> Height(s.control[i]) <= k
    ensures forall i {:trigger s.control[i]} :: 0 <= i < j ==> FrameOk(core', s.control[i])
  {
    forall i {:trigger s.control[i]} | 0 <= i < j
      ensures FrameOk(core', s.control[i])
    {
      var f := s.control[i];
      assert FrameOk(s.core, f);
      PreservedAlong(s.core, core', f.at, k);
      if Mending(f) {
        PreservedAlong(s.core, core', f.phase.entry, k);
      }
      if f.Run? && OnList(f.phase) {
        assert core'.list[|f.at.list|] == core'.list[..k][|f.at.list|] == s.core.list[..k][|f.at.list|];
      }
    }
  }

  lemma ConservedTop(core: Core, core': Core, control: seq<Frame>, control': seq<Frame>, f': Frame, slots: nat)
    requires control != [] && core'.free == core.free && core'.list == core.list
    requires control' == control[..|control| - 1] + [f'] && Flight(f') == Flight(control[|control| - 1])
    requires forall c, id :: Conserved(core, control, slots, c, id)
    ensures forall c, id :: Conserved(core', control', slots, c, id)
  {
    forall c, id ensures Conserved(core', control', slots, c, id) {
      assert Conserved(core, control, slots, c, id);
      InFlightPushed(control[..|control| - 1], f', c, id);
    }
  }

  /** Slot id of CPU c is accounted for once more or once less on neither side. */
  ghost predicate Balanced(core: Core, f: Frame, core': Core, f': Frame, c: Cpu, id: nat) {
    multiset(core.free.Get(c))[id] + Holds(core.list, c, id) + Holds(Flight(f), c, id) ==
    multiset(core'.free.Get(c))[id] + Holds(core'.list, c, id) + Holds(Flight(f'), c, id)
  }

  lemma ConservedBalanced(s: State, s': State, f': Frame, slots: nat)
    requires s.control != [] && s'.control == SetTop(s, f')
    requires forall c, id :: Conserved(s.core, s.control, slots, c, id)
    requires forall c, id :: Balanced(s.core, Top(s), s'.core, f', c, id)
    ensures forall c, id :: Conserved(s'.core, s'.control, slots, c, id)
  {
    assert s.control == Popped(s) + [Top(s)];
    forall c, id ensures Conserved(s'.core, s'.control, slots, c, id) {
      assert Conserved(s.core, s.control, slots, c, id);
      assert Balanced(s.core, Top(s), s'.core, f', c, id);
      InFlightPushed(Popped(s), f', c, id);
      InFlightPushed(Popped(s), Top(s), c, id);
    }
  }

  lemma HoldsSingle(x: Ctx, c: Cpu, id: nat)
    ensures Holds([x], c, id) == if IsSlot(x, c, id) then 1 else 0
  {
    HoldsPushed([], x, c, id);
    assert [] + [x] == [x];
  }

  /** The top frame moves on: same activation, or same stretch of native code. */
  ghost predicate Moved(t: Frame, f': Frame) {
    && f'.at == t.at && (f'.Run? <==> t.Run?)
    && (t.Native? ==> f'.origin == t.origin)
    && (t.Run? ==> f'.id == t.id && f'.cpu == t.cpu && f'.image == t.image
                   && (f'.phase.Allocated? ==> t.phase.Allocated?))
  }

  ghost predicate SameActivation(t: Frame, f': Frame) {
    Moved(t, f') && (Mending(f') ==> Mending(t) && f'.phase.entry == t.phase.entry)
  }

  /** What a step that only moves the top frame has to show. */
  lemma RetopBody(s: State, s': State, f': Frame, slots: nat)
    requires Body(s, slots) && Moved(Top(s), f') && FramePoolOk(f', Popped(s), slots)
    requires s'.control == SetTop(s, f') && s'.buffers == s.buffers
    requires SameBelow(s.core, s'.core, |f'.at.list|)
    requires FrameOk(s'.core, f') && ListOk(s'.core)
    requires forall c, id :: Conserved(s'.core, s'.control, slots, c, id)
    requires |s'.core.list| <= |s.core.list|
    requires forall p :: 0 <= p < |s'.core.list| ==> s'.core.list[p].image == s.core.list[p].image
    ensures Body(s', slots)
  {
    var n := |s.control| - 1;
    RetopChained(s.control, f');
    forall i: nat | i < n ensures Height(s.control[i]) <= |f'.at.list| { HeightsGrow(s.control, i, n); }
    FramesBelow(s, slots, s'.core, |f'.at.list|, n);
    RetopPool(s, s', f', slots);
    RetopBuffers(s, s', f', slots);
  }

  lemma Retop(s: State, s': State, f': Frame, slots: nat)
    requires Body(s, slots) && SameActivation(Top(s), f')
    requires s'.control == SetTop(s, f') && s'.buffers == s.buffers
    requires SameBelow(s.core, s'.core, |f'.at.list|)
    requires FrameOk(s'.core, f') && ListOk(s'.core)
    requires forall c, id :: Conserved(s'.core, s'.control, slots, c, id)
    requires |s'.core.list| <= |s.core.list|
    requires forall p :: 0 <= p < |s'.core.list| ==> s'.core.list[p].image == s.core.list[p].image
    ensures Body(s', slots)
  {
    assert FramePoolOk(s.control[|s.control| - 1], s.control[..|s.control| - 1], slots);
    RetopBody(s, s', f', slots);
  }

  lemma RetopChained(control: seq<Frame>, f': Frame)
    requires Chained(control) && Moved(control[|control| - 1], f')
    ensures Chained(control[..|control| - 1] + [f'])
  {
    var n := |control| - 1;
    if n > 0 {
      LinkedPrefix(control, n);
      assert LinkAt(control, n);
      LinkedPush(control[..n], f');
    }
  }

  lemma RetopPool(s: State, s': State, f': Frame, slots: nat)
    requires PoolOk(s, slots) && s.control != [] && FramePoolOk(f', Popped(s), slots)
    requires s'.control == SetTop(s, f')
    requires forall c, id :: Conserved(s'.core, s'.control, slots, c, id)
    ensures PoolOk(s', slots)
  {
    forall i | 0 <= i < |s'.control|
      ensures FramePoolOk(s'.control[i], s'.control[..i], slots)
    {
      assert FramePoolOk(s.control[i], s.control[..i], slots);
      assert s'.control[..i] == s.control[..i];
    }
  }

  lemma RetopBuffers(s: State, s': State, f': Frame, slots: nat)
    requires BuffersOk(s) && s.control != [] && Moved(Top(s), f')
    requires s'.control == SetTop(s, f') && s'.buffers == s.buffers
    requires |s'.core.list| <= |s.core.list|
    requires forall p :: 0 <= p < |s'.core.list| ==> s'.core.list[p].image == s.core.list[p].image
    ensures BuffersOk(s')
  {
    forall i {:trigger s'.control[i]} | 0 <= i < |s'.control|
      ensures BufferOk(s', i, s'.control[i])
    {
      assert BufferOk(s, i, s.control[i]);
    }
  }

  /** Only the interrupt state and the phase of the top frame move. */
  lemma RetopQuiet(s: State, irq': Irq, f': Frame, slots: nat)
    requires Inv(s, slots) && SameActivation(Top(s), f')
    requires Flight(f') == Flight(Top(s))
    requires f'.Run? ==> OnList(f'.phase) == OnList(Top(s).phase) && Started(f'.phase) == Started(Top(s).phase)
                         && f'.phase != InNative
    requires Mending(f') == Mending(Top(s))
    requires irq'.depth == (if Critical(f') then 1 else 0) && (Critical(f') ==> !irq'.hw)
    ensures Inv(s.(core := s.core.(irq := irq'), control := SetTop(s, f')), slots)
  {
    var s' := s.(core := s.core.(irq := irq'), control := SetTop(s, f'));
    assert FrameOk(s.core, s.control[|s.control| - 1]);
    ConservedTop(s.core, s'.core, s.control, s'.control, f', slots);
    Retop(s, s', f', slots);
  }

  // ----- the steps that open or close a section -----

  lemma CloseSectionKeeps(s: State, f': Frame, slots: nat)
    requires Inv(s, slots) && Critical(Top(s)) && SameActivation(Top(s), f') && !Critical(f')
    requires Flight(f') == Flight(Top(s)) && Mending(f') == Mending(Top(s))
    requires f'.Run? ==> OnList(f'.phase) == OnList(Top(s).phase) && Started(f'.phase) == Started(Top(s).phase)
                         && f'.phase != InNative
    ensures Good(CloseSection(s, f'), slots)
  {
    RetopQuiet(s, End(s.core.irq), f', slots);
  }

  lemma EndSectionKeeps(s: State, slots: nat)
    requires Inv(s, slots)
    ensures Good(StepEndSection(s), slots)
  {
    var t := Top(s);
    if t.Native? {
      if t.busy {
        CloseSectionKeeps(s, t.(busy := false), slots);
      }
    } else {
      match t.phase
      case Entering => CloseSectionKeeps(s, Goto(t, Phase.Linked), slots);
      case Repairing(chain, entry) => CloseSectionKeeps(s, Goto(t, Freeing(chain, entry)), slots);
      case Leaving(own) => CloseSectionKeeps(s, Goto(t, Left(own)), slots);
      case ExitRepairing(chain) => CloseSectionKeeps(s, Goto(t, ExitFreeing(chain)), slots);
      case _ =>
    }
  }

  /** Outside the top frame nobody is in a section, so nobody is in a JIT slice. */
  lemma JitOnlyOnTop(control: seq<Frame>)
    requires Chained(control)
    ensures JitActive(control) <==> control[|control| - 1].Run? && control[|control| - 1].phase.InJit?
  {
    forall i | 0 <= i < |control| - 1 ensures !(control[i].Run? && control[i].phase.InJit?) {
      assert LinkAt(control, i + 1);
    }
  }

  lemma BeginSliceKeeps(s: State, slots: nat)
    requires Inv(s, slots)
    ensures Good(StepBeginSlice(s), slots)
  {
    JitOnlyOnTop(s.control);
    if Top(s).Run? && Top(s).phase.Ready? {
      RetopQuiet(s, Begin(s.core.irq), Goto(Top(s), InJit), slots);
    }
  }

  lemma EndSliceKeeps(s: State, reason: Reason, slots: nat)
    requires Inv(s, slots)
    ensures Good(StepEndSlice(s, reason), slots)
  {
    if Top(s).Run? && Top(s).phase.InJit? {
      CloseSectionKeeps(s, Goto(Top(s), if reason == Continue then Ready else Stopped(reason)), slots);
    }
  }

  lemma BeginCodeRangeKeeps(s: State, slots: nat)
    requires Inv(s, slots)
    ensures Good(StepBeginCodeRange(s), slots)
  {
    JitOnlyOnTop(s.control);
    if Top(s).Native? && !Top(s).busy {
      RetopQuiet(s, Begin(s.core.irq), Top(s).(busy := true), slots);
    }
  }

  lemma IrqOnlyKeeps(s: State, irq': Irq, slots: nat)
    requires Inv(s, slots)
    requires irq'.depth == s.core.irq.depth && (irq'.depth > 0 ==> irq'.hw == s.core.irq.hw)
    ensures Inv(s.(core := s.core.(irq := irq')), slots)
  {
    assert SetTop(s, Top(s)) == s.control;
    RetopQuiet(s, irq', Top(s), slots);
  }

  lemma HookKeeps(s: State, enable: bool, slots: nat)
    requires Inv(s, slots)
    ensures Good(Step(s, Hook(enable)), slots)
  {
    IrqOnlyKeeps(s, SetByClient(s.core.irq, enable), slots);
  }

  // ----- the steps that change the newest context and its engine -----

  lemma HeadBalanced(core: Core, core': Core, f: Frame, f': Frame)
    requires core.list != [] && |core'.list| == |core.list| && core'.free == core.free
    requires core'.list[..|core.list| - 1] == core.list[..|core.list| - 1]
    requires Head(core').id == Head(core).id && Head(core').cpu == Head(core).cpu
    requires Flight(f) == Flight(f')
    ensures forall c, id :: Balanced(core, f, core', f', c, id)
  {
  }

  lemma HeadFrame(core: Core, core': Core, f: Frame, f': Frame)
    requires FrameOk(core, f) && f.Run? && OnList(f.phase) && |core.list| == |f.at.list| + 1
    requires Moved(f, f') && OnList(f'.phase) && !Mending(f') && Flight(f') == []
    requires |core'.list| == |core.list| && SameBelow(core, core', |core.list| - 1)
    requires var x, x' := Head(core), Head(core');
             x'.id == x.id && x'.cpu == x.cpu && x'.image == x.image && x'.started == Started(f'.phase)
    ensures FrameOk(core', f')
    ensures forall p :: 0 <= p < |core'.list| ==> core'.list[p].image == core.list[p].image
  {
    var n := |core.list| - 1;
    PreservedAlong(core, core', f'.at, n);
    forall p | 0 <= p < n ensures core'.list[p].image == core.list[p].image {
      assert core'.list[..n][p] == core.list[..n][p];
    }
  }

  lemma HeadStep(s: State, core': Core, f': Frame, slots: nat)
    requires Inv(s, slots) && SameActivation(Top(s), f') && Top(s).Run? && s.core.list != []
    requires OnList(Top(s).phase) && OnList(f'.phase) && !Mending(f') && f'.phase != InNative
    requires Flight(Top(s)) == [] && Critical(f') == Critical(Top(s))
    requires core'.irq == s.core.irq && core'.free == s.core.free && ListOk(core')
    requires SameBelow(s.core, core', |s.core.list| - 1)
    requires |core'.list| == |s.core.list|
    requires var x, x' := Head(s.core), Head(core');
             x'.id == x.id && x'.cpu == x.cpu && x'.image == x.image && x'.started == Started(f'.phase)
    ensures Inv(s.(core := core', control := SetTop(s, f')), slots)
  {
    var s' := s.(core := core', control := SetTop(s, f'));
    assert FrameOk(s.core, s.control[|s.control| - 1]);
    HeadFrame(s.core, core', Top(s), f');
    HeadBalanced(s.core, core', Top(s), f');
    ConservedBalanced(s, s', f', slots);
    Retop(s, s', f', slots);
  }

  /** The activation on top owns the newest context. */
  lemma TopOwnsHead(s: State, slots: nat)
    requires Inv(s, slots) && Top(s).Run? && OnList(Top(s).phase)
    ensures s.core.list != [] && OwnsHead(s.core, Top(s)) && |s.core.list| == |Top(s).at.list| + 1
    ensures Head(s.core).image == Top(s).image && Head(s.core).started == Started(Top(s).phase)
  {
    assert FrameOk(s.core, s.control[|s.control| - 1]);
  }

  lemma CapturedHead(core: Core, args: Args)
    requires core.list != []
    ensures var core', x := Capture(core, args), Head(core);
            && core'.irq == core.irq && core'.free == core.free && |core'.list| == |core.list|
            && Head(core').id == x.id && Head(core').cpu == x.cpu && Head(core').image == x.image && Head(core').started
  {
  }

  /** The newest context starts, in whatever way its engine changes. */
  lemma StartedStep(s: State, core': Core, slots: nat)
    requires Inv(s, slots) && Top(s).Run? && Top(s).phase.Linked? && s.core.list != [] && OwnsHead(s.core, Top(s))
    requires Head(s.core).image == Top(s).image && ListOk(core') && SameBelow(s.core, core', |s.core.list| - 1)
    requires core'.irq == s.core.irq && core'.free == s.core.free && |core'.list| == |s.core.list|
    requires var x, x' := Head(s.core), Head(core');
             x'.id == x.id && x'.cpu == x.cpu && x'.image == x.image && x'.started
    ensures Inv(s.(core := core', control := SetTop(s, Goto(Top(s), Ready))), slots)
  {
    HeadStep(s, core', Goto(Top(s), Ready), slots);
  }

  lemma CaptureStep(s: State, args: Args, slots: nat)
    requires Inv(s, slots) && Top(s).Run? && Top(s).phase.Linked? && s.core.list != []
    ensures Inv(s.(core := Capture(s.core, args), control := SetTop(s, Goto(Top(s), Ready))), slots)
  {
    TopOwnsHead(s, slots);
    CaptureKeeps(s.core, args);
    CapturedHead(s.core, args);
    StartedStep(s, Capture(s.core, args), slots);
  }

  lemma CaptureKeepsInv(s: State, args: Args, slots: nat)
    requires Inv(s, slots)
    ensures Good(StepCapture(s, args), slots)
  {
    var t := Top(s);
    if t.Run? && t.phase.Linked? {
      TopOwnsHead(s, slots);
      CaptureStep(s, args, slots);
    }
  }

  lemma WriteStep(s: State, regs: Regs, f': Frame, slots: nat)
    requires Inv(s, slots) && SameActivation(Top(s), f') && Top(s).Run?
    requires Started(Top(s).phase) && Started(f'.phase) && !Mending(f') && f'.phase != InNative
    requires Flight(Top(s)) == [] && Critical(f') == Critical(Top(s)) && s.core.list != []
    ensures Inv(s.(core := Write(s.core, regs), control := SetTop(s, f')), slots)
  {
    TopOwnsHead(s, slots);
    WriteKeeps(s.core, regs);
    HeadStep(s, Write(s.core, regs), f', slots);
  }

  lemma SliceKeeps(s: State, regs: Regs, slots: nat)
    requires Inv(s, slots)
    ensures Good(StepSlice(s, regs), slots)
  {
    if Top(s).Run? && Top(s).phase.InJit? {
      TopOwnsHead(s, slots);
      WriteStep(s, regs, Top(s), slots);
      assert SetTop(s, Top(s)) == s.control;
    }
  }

  lemma ResumeKeeps(s: State, value: Word, slots: nat)
    requires Inv(s, slots)
    ensures Good(StepResume(s, value), slots)
  {
    var t := Top(s);
    if t.Run? && t.phase.Freeing? && t.phase.chain == [] {
      TopOwnsHead(s, slots);
      WriteStep(s, NativeReturnRegs(t.cpu, s.core.engine.Get(t.cpu), value), Goto(t, Ready), slots);
    }
  }

  lemma RestoreStep(s: State, slots: nat)
    requires Inv(s, slots) && Top(s).Run? && Top(s).phase.Stopped? && s.core.list != []
    ensures Inv(s.(core := Restore(s.core), control := SetTop(s, Goto(Top(s), Finished))), slots)
  {
    TopOwnsHead(s, slots);
    RestoreKeeps(s.core);
    HeadStep(s, Restore(s.core), Goto(Top(s), Finished), slots);
  }

  lemma PostStep(s: State, regs: Regs, slots: nat)
    requires Inv(s, slots) && Top(s).Run? && Top(s).phase.Stopped? && s.core.list != []
    ensures Inv(s.(core := Write(s.core, regs)), slots)
  {
    WriteStep(s, regs, Top(s), slots);
    assert SetTop(s, Top(s)) == s.control;
  }

  lemma FinishKeeps(s: State, slots: nat)
    requires Inv(s, slots)
    ensures Good(StepFinish(s), slots)
  {
    var t := Top(s);
    if t.Run? && t.phase.Stopped? && t.phase.reason in {ReturnToNative, FailedEmu} {
      TopOwnsHead(s, slots);
      if t.phase.reason == FailedEmu {
        RestoreStep(s, slots);
      } else {
        var regs := PostRegs(t.cpu, s.core.engine.Get(t.cpu));
        PostStep(s, regs, slots);
        RestoreStep(s.(core := Write(s.core, regs)), slots);
      }
    }
  }

  // ----- entering and leaving the list -----

  lemma EnterBalanced(s: State, f': Frame, x: Ctx)
    requires s.control != [] && Flight(Top(s)) == [x] && Flight(f') == []
    ensures forall c, id :: Balanced(s.core, Top(s), Enter(s.core, x), f', c, id)
  {
    forall c, id ensures Balanced(s.core, Top(s), Enter(s.core, x), f', c, id) {
      HoldsSingle(x, c, id);
      HoldsPushed(s.core.list, x, c, id);
    }
  }

  lemma EnterBuffers(s: State, s': State, f': Frame, x: Ctx)
    requires s.control != [] && BuffersOk(s) && s'.buffers == s.buffers && SameActivation(Top(s), f')
    requires Top(s).Run? && Top(s).phase.Allocated? && !f'.phase.Allocated? && x.image == f'.image
    requires s'.control == SetTop(s, f') && s'.core.list == s.core.list + [x]
    ensures BuffersOk(s')
  {
    assert BufferOk(s, |s.control| - 1, s.control[|s.control| - 1]);
    forall i {:trigger s'.control[i]} | 0 <= i < |s'.control|
      ensures BufferOk(s', i, s'.control[i])
    {
      assert BufferOk(s, i, s.control[i]);
    }
  }

  lemma EnterFrames(s: State, slots: nat, x: Ctx)
    requires Inv(s, slots) && Top(s).Run? && Top(s).phase.Allocated?
    requires x == Ctx(Top(s).id, Top(s).cpu, Top(s).image, false, None)
    ensures FrameOk(Enter(s.core, x), Goto(Top(s), Entering))
    ensures forall i {:trigger s.control[i]} :: 0 <= i < |s.control| - 1 ==> FrameOk(Enter(s.core, x), s.control[i])
    ensures ListOk(Enter(s.core, x))
  {
    var n := |s.control| - 1;
    assert FrameOk(s.core, s.control[n]);
    EnterKeeps(s.core, x);
    PreservedAlong(s.core, Enter(s.core, x), Top(s).at, |s.core.list|);
    forall i: nat | i < n ensures Height(s.control[i]) <= |s.core.list| { HeightsGrow(s.control, i, n); }
    FramesBelow(s, slots, Enter(s.core, x), |s.core.list|, n);
  }

  lemma EnterPool(s: State, s': State, slots: nat, x: Ctx)
    requires Inv(s, slots) && Top(s).Run? && Top(s).phase.Allocated?
    requires x == Ctx(Top(s).id, Top(s).cpu, Top(s).image, false, None)
    requires s' == s.(core := Enter(s.core, x), control := SetTop(s, Goto(Top(s), Entering)))
    ensures PoolOk(s', slots) && BuffersOk(s') && Chained(s'.control)
  {
    var f' := Goto(Top(s), Entering);
    EnterBalanced(s, f', x);
    ConservedBalanced(s, s', f', slots);
    assert FramePoolOk(s.control[|s.control| - 1], s.control[..|s.control| - 1], slots);
    RetopPool(s, s', f', slots);
    EnterBuffers(s, s', f', x);
    RetopChained(s.control, f');
  }

  lemma EnterKeepsInv(s: State, slots: nat)
    requires Inv(s, slots)
    ensures Good(StepEnter(s), slots)
  {
    var t := Top(s);
    if t.Run? && t.phase.Allocated? {
      var x := Ctx(t.id, t.cpu, t.image, false, None);
      var s' := s.(core := Enter(s.core, x), control := SetTop(s, Goto(t, Entering)));
      EnterFrames(s, slots, x);
      EnterPool(s, s', slots, x);
      assert forall i {:trigger s'.control[i]} :: 0 <= i < |s'.control| ==> FrameOk(s'.core, s'.control[i]);
      assert TopOk(s');
    }
  }

  lemma LeaveBalanced(s: State, f': Frame)
    requires s.control != [] && s.core.list != []
    requires Flight(Top(s)) == [] && Flight(f') == [Head(s.core)]
    ensures forall c, id :: Balanced(s.core, Top(s), Leave(s.core), f', c, id)
  {
    var n := |s.core.list| - 1;
    assert s.core.list == s.core.list[..n] + [Head(s.core)];
    forall c, id ensures Balanced(s.core, Top(s), Leave(s.core), f', c, id) {
      HoldsSingle(Head(s.core), c, id);
      HoldsPushed(s.core.list[..n], Head(s.core), c, id);
    }
  }

  lemma LeaveFrame(s: State, slots: nat)
    requires Inv(s, slots) && Top(s).Run? && Top(s).phase.Finished? && s.core.list != []
    ensures FrameOk(Leave(s.core), Goto(Top(s), Leaving(Head(s.core))))
    ensures ListOk(Leave(s.core)) && SameBelow(s.core, Leave(s.core), |Top(s).at.list|)
    ensures Leave(s.core).count.Get(Head(s.core).cpu) >= 0
  {
    TopOwnsHead(s, slots);
    LeaveKeeps(s.core);
    assert FrameOk(s.core, s.control[|s.control| - 1]);
    assert Head(s.core).saved.None? by { assert Head(s.core) == s.core.list[|s.core.list| - 1]; }
    PreservedAlong(s.core, Leave(s.core), Top(s).at, |s.core.list| - 1);
  }

  lemma LeaveStep(s: State, slots: nat)
    requires Inv(s, slots) && Top(s).Run? && Top(s).phase.Finished? && s.core.list != []
    ensures Inv(s.(core := Leave(s.core), control := SetTop(s, Goto(Top(s), Leaving(Head(s.core))))), slots)
  {
    var f' := Goto(Top(s), Leaving(Head(s.core)));
    var s' := s.(core := Leave(s.core), control := SetTop(s, f'));
    LeaveFrame(s, slots);
    LeaveBalanced(s, f');
    ConservedBalanced(s, s', f', slots);
    TopOwnsHead(s, slots);
    Retop(s, s', f', slots);
  }

  lemma LeaveKeepsInv(s: State, slots: nat)
    requires Inv(s, slots)
    ensures Good(StepLeave(s), slots)
  {
    if Top(s).Run? && Top(s).phase.Finished? {
      TopOwnsHead(s, slots);
      LeaveFrame(s, slots);
      LeaveStep(s, slots);
    }
  }

  // ----- freeing -----

  /** A context in flight is not in its pool's free queue. */
  lemma FlightNotFree(s: State, slots: nat, x: Ctx)
    requires Inv(s, slots) && x in Flight(Top(s))
    ensures x.id !in s.core.free.Get(x.cpu)
  {
    var n := |s.control| - 1;
    var p :| 0 <= p < |Flight(Top(s))| && Flight(Top(s))[p] == x;
    HoldsOnce(Flight(Top(s)), p, x.cpu, x.id);
    InFlightFrame(s.control, n, x.cpu, x.id);
    assert Conserved(s.core, s.control, slots, x.cpu, x.id);
  }

  lemma PutSlotCounts(core: Core, x: Ctx, c: Cpu, id: nat)
    ensures multiset(PutSlot(core, x.cpu, x.id).free.Get(c))[id] ==
            multiset(core.free.Get(c))[id] + if IsSlot(x, c, id) then 1 else 0
  {
  }

  lemma FreeBalanced(s: State, f': Frame, chain: seq<Ctx>, x: Ctx)
    requires s.control != [] && Flight(Top(s)) == chain + [x] && Flight(f') == chain
    ensures forall c, id :: Balanced(s.core, Top(s), PutSlot(s.core, x.cpu, x.id), f', c, id)
  {
    forall c, id ensures Balanced(s.core, Top(s), PutSlot(s.core, x.cpu, x.id), f', c, id) {
      HoldsPushed(chain, x, c, id);
      PutSlotCounts(s.core, x, c, id);
    }
  }

  lemma FreeLeakedStep(s: State, f': Frame, chain: seq<Ctx>, x: Ctx, slots: nat)
    requires Inv(s, slots) && SameActivation(Top(s), f') && Top(s).Run? && !Critical(f') && !Critical(Top(s))
    requires Flight(Top(s)) == chain + [x] && Flight(f') == chain
    requires f'.phase != InNative && Mending(f') == Mending(Top(s))
    requires OnList(f'.phase) == OnList(Top(s).phase) && Started(f'.phase) == Started(Top(s).phase)
    ensures Inv(s.(core := PutSlot(s.core, x.cpu, x.id), control := SetTop(s, f')), slots)
  {
    var s' := s.(core := PutSlot(s.core, x.cpu, x.id), control := SetTop(s, f'));
    assert FrameOk(s.core, s.control[|s.control| - 1]);
    assert forall y <- chain :: y in Flight(Top(s));
    FreeBalanced(s, f', chain, x);
    ConservedBalanced(s, s', f', slots);
    Retop(s, s', f', slots);
  }

  lemma FreeLeakedKeeps(s: State, slots: nat)
    requires Inv(s, slots)
    ensures Good(StepFreeLeaked(s), slots)
  {
    var t := Top(s);
    if t.Run? && (t.phase.Freeing? || t.phase.ExitFreeing?) && t.phase.chain != [] {
      var n := |t.phase.chain| - 1;
      var x := t.phase.chain[n];
      assert FrameOk(s.core, s.control[|s.control| - 1]);
      assert x in Flight(t);
      FlightNotFree(s, slots, x);
      assert t.phase.chain == t.phase.chain[..n] + [x];
      FreeLeakedStep(s, Goto(t, Shortened(t.phase, n)), t.phase.chain[..n], x, slots);
    }
  }

  // ----- shrinking the control stack -----

  lemma Truncated(s: State, s': State, j: nat, slots: nat)
    requires Body(s, slots) && 0 < j <= |s.control|
    requires s'.control == s.control[..j] && s'.buffers == s.buffers
    requires s'.core == s.core.(free := s'.core.free)
    requires forall c, id :: Conserved(s'.core, s'.control, slots, c, id)
    ensures Body(s', slots)
  {
    LinkedPrefix(s.control, j);
    forall i | 0 <= i < j
      ensures FramePoolOk(s'.control[i], s'.control[..i], slots)
    {
      assert s'.control[..i] == s.control[..i];
      assert FramePoolOk(s.control[i], s.control[..i], slots);
    }
    forall i {:trigger s'.control[i]} | 0 <= i < j
      ensures FrameOk(s'.core, s'.control[i]) && BufferOk(s', i, s'.control[i])
    {
      assert FrameOk(s.core, s.control[i]) && BufferOk(s, i, s.control[i]);
    }
  }

  /** What the frame under a finished activation sees. */
  lemma BelowTopRun(s: State, slots: nat)
    requires Inv(s, slots) && Top(s).Run? && !OnList(Top(s).phase)
    ensures |s.control| >= 2 && s.control[|s.control| - 2].Native? && !s.control[|s.control| - 2].busy
    ensures s.control[|s.control| - 2].origin == Event ==>
              |s.core.list| == |s.control[|s.control| - 2].at.list|
  {
    assert LinkAt(s.control, |s.control| - 1);
  }

  lemma FreeSelfConserved(s: State, s': State, x: Ctx, slots: nat)
    requires s.control != [] && Flight(Top(s)) == [x]
    requires s'.core == PutSlot(s.core, x.cpu, x.id) && s'.control == Popped(s)
    requires forall c, id :: Conserved(s.core, s.control, slots, c, id)
    ensures forall c, id :: Conserved(s'.core, s'.control, slots, c, id)
  {
    forall c, id ensures Conserved(s'.core, s'.control, slots, c, id) {
      assert Conserved(s.core, s.control, slots, c, id);
      HoldsSingle(x, c, id);
      PutSlotCounts(s.core, x, c, id);
    }
  }

  lemma FreeSelfKeeps(s: State, slots: nat)
    requires Inv(s, slots)
    ensures Good(StepFreeSelf(s), slots)
  {
    var t := Top(s);
    if t.Run? && t.phase.Left? {
      var x := t.phase.own;
      assert FrameOk(s.core, s.control[|s.control| - 1]);
      assert x in Flight(t);
      FlightNotFree(s, slots, x);
      BelowTopRun(s, slots);
      var s' := s.(core := PutSlot(s.core, x.cpu, x.id), control := Popped(s));
      FreeSelfConserved(s, s', x, slots);
      Truncated(s, s', |s.control| - 1, slots);
    }
  }

  /** Dropping frames that hold nothing in flight. */
  lemma TruncatedQuiet(s: State, j: nat, slots: nat)
    requires Body(s, slots) && 0 < j <= |s.control|
    requires forall i {:trigger s.control[i]} :: j <= i < |s.control| ==> Flight(s.control[i]) == []
    ensures Body(s.(control := s.control[..j]), slots)
  {
    var s' := s.(control := s.control[..j]);
    forall c, id ensures Conserved(s'.core, s'.control, slots, c, id) {
      assert Conserved(s.core, s.control, slots, c, id);
      InFlightQuiet(s.control, j, c, id);
    }
    Truncated(s, s', j, slots);
  }

  lemma EndExitKeeps(s: State, slots: nat)
    requires Inv(s, slots)
    ensures Good(StepEndExit(s), slots)
  {
    var t := Top(s);
    if t.Run? && t.phase.ExitFreeing? && t.phase.chain == [] {
      BelowTopRun(s, slots);
      TruncatedQuiet(s, |s.control| - 1, slots);
    }
  }

  lemma ReturnFromEventKeeps(s: State, slots: nat)
    requires Inv(s, slots)
    ensures Good(StepReturnFromEvent(s), slots)
  {
    var t := Top(s);
    var n := |s.control| - 1;
    if t.Native? && t.origin == Event && !t.busy {
      assert LinkAt(s.control, n);
      TruncatedQuiet(s, n, slots);
    }
  }

  /** Activations under a native frame that is no event handler are inside their thunk. */
  lemma CallersInNative(s: State, slots: nat, d: nat, i: nat)
    requires Inv(s, slots) && d <= i < |s.control| && Top(s).Native? && NoEventAbove(s.control, d)
    ensures s.control[i].Run? ==> s.control[i].phase == InNative
    ensures Flight(s.control[i]) == []
  {
    if s.control[i].Run? {
      assert LinkAt(s.control, i + 1);
    }
  }

  lemma LongJumpKeeps(s: State, d: nat, slots: nat)
    requires Inv(s, slots)
    ensures Good(StepLongJump(s, d), slots)
  {
    if StepLongJump(s, d).Next? {
      forall i {:trigger s.control[i]} | d + 1 <= i < |s.control| ensures Flight(s.control[i]) == [] {
        CallersInNative(s, slots, d, i);
      }
      if d < |s.control| - 1 {
        assert LinkAt(s.control, d + 1);
      }
      TruncatedQuiet(s, d + 1, slots);
    }
  }

  // ----- growing the control stack -----

  lemma Pushed(s: State, s': State, f: Frame, slots: nat)
    requires Body(s, slots) && s'.control == s.control + [f] && Link(Top(s), f)
    requires s'.core == s.core.(free := s'.core.free) && f.at == s.core && !Mending(f)
    requires f.Run? ==> f.phase == Allocated
    requires forall c, id :: Conserved(s'.core, s'.control, slots, c, id)
    requires BuffersOk(s')
    ensures Body(s', slots)
  {
    LinkedPush(s.control, f);
    forall i | 0 <= i < |s'.control|
      ensures FramePoolOk(s'.control[i], s'.control[..i], slots)
    {
      if i < |s.control| {
        assert s'.control[..i] == s.control[..i];
        assert FramePoolOk(s.control[i], s.control[..i], slots);
      } else {
        assert s'.control[..i] == s.control;
      }
    }
    forall i {:trigger s'.control[i]} | 0 <= i < |s'.control|
      ensures FrameOk(s'.core, s'.control[i])
    {
      if i < |s.control| {
        assert FrameOk(s.core, s.control[i]);
      } else {
        PreservedNow(s.core);
      }
    }
  }

  lemma TakeSlotCounts(core: Core, cpu: Cpu, c: Cpu, id: nat)
    requires core.free.Get(cpu) != []
    ensures multiset(core.free.Get(c))[id] == multiset(TakeSlot(core, cpu).free.Get(c))[id] +
              if c == cpu && id == core.free.Get(cpu)[0] then 1 else 0
  {
    var q := core.free.Get(cpu);
    assert q == [q[0]] + q[1..];
  }

  /** The slot moves from the free queue into the flight of the new activation. */
  lemma CallRunConserves(s: State, cpu: Cpu, f: Frame, slots: nat)
    requires s.core.free.Get(cpu) != [] && f.Run?
    requires Flight(f) == [Ctx(s.core.free.Get(cpu)[0], cpu, f.image, false, None)]
    requires forall c, id :: Conserved(s.core, s.control, slots, c, id)
    ensures forall c, id :: Conserved(TakeSlot(s.core, cpu), s.control + [f], slots, c, id)
  {
    forall c, id ensures Conserved(TakeSlot(s.core, cpu), s.control + [f], slots, c, id) {
      assert Conserved(s.core, s.control, slots, c, id);
      InFlightPushed(s.control, f, c, id);
      HoldsSingle(Flight(f)[0], c, id);
      TakeSlotCounts(s.core, cpu, c, id);
    }
  }

  lemma CallRunBuffers(s: State, s': State, f: Frame)
    requires BuffersOk(s) && f.Run? && f.phase.Allocated? && (f.image.Some? ==> f.image.value !in s.buffers)
    requires s'.control == s.control + [f] && s'.core.list == s.core.list
    requires s'.buffers == if f.image.Some? then s.buffers[f.image.value := |s.control|] else s.buffers
    ensures BuffersOk(s')
  {
    forall i {:trigger s'.control[i]} | 0 <= i < |s'.control|
      ensures BufferOk(s', i, s'.control[i])
    {
      if i < |s.control| {
        assert BufferOk(s, i, s.control[i]);
      }
    }
  }

  lemma CallRunKeeps(s: State, cpu: Cpu, image: Option<nat>, slots: nat)
    requires Inv(s, slots)
    ensures Good(StepCallRun(s, cpu, image), slots)
  {
    var o := StepCallRun(s, cpu, image);
    if o.Next? && o.s != s {
      var f := Run(s.core.free.Get(cpu)[0], cpu, image, Allocated, s.core);
      var s' := o.s;
      assert FrameOk(s.core, s.control[|s.control| - 1]);
      CallRunConserves(s, cpu, f, slots);
      CallRunBuffers(s, s', f);
      Pushed(s, s', f, slots);
    }
  }

  /** Pushing a native frame changes nothing else. */
  lemma NativePushed(s: State, origin: Origin, slots: nat)
    requires Body(s, slots) && Link(Top(s), Native(origin, false, s.core))
    ensures Body(s.(control := s.control + [Native(origin, false, s.core)]), slots)
  {
    var f := Native(origin, false, s.core);
    var s' := s.(control := s.control + [f]);
    forall c, id ensures Conserved(s'.core, s'.control, slots, c, id) {
      assert Conserved(s.core, s.control, slots, c, id);
      InFlightPushed(s.control, f, c, id);
    }
    forall i {:trigger s'.control[i]} | 0 <= i < |s'.control|
      ensures BufferOk(s', i, s'.control[i])
    {
      if i < |s.control| {
        assert BufferOk(s, i, s.control[i]);
      }
    }
    Pushed(s, s', f, slots);
  }

  lemma FireEventKeeps(s: State, slots: nat)
    requires Inv(s, slots)
    ensures Good(StepFireEvent(s), slots)
  {
    if StepFireEvent(s).Next? {
      NativePushed(s, Event, slots);
    }
  }

  // ----- native calls, their return and image exit -----

  lemma IntoNative(s: State, slots: nat)
    requires Inv(s, slots) && Top(s).Run? && Top(s).phase.Stopped?
    ensures Body(s.(control := SetTop(s, Goto(Top(s), InNative))), slots)
  {
    var f' := Goto(Top(s), InNative);
    var s1 := s.(control := SetTop(s, f'));
    assert FrameOk(s.core, s.control[|s.control| - 1]);
    ConservedTop(s.core, s.core, s.control, s1.control, f', slots);
    Retop(s, s1, f', slots);
  }

  lemma CallNativeKeeps(s: State, slots: nat)
    requires Inv(s, slots)
    ensures Good(StepCallNative(s), slots)
  {
    if Top(s).Run? && Top(s).phase == Stopped(CallToNative) {
      var s1 := s.(control := SetTop(s, Goto(Top(s), InNative)));
      IntoNative(s, slots);
      NativePushed(s1, Called, slots);
      assert StepCallNative(s) == Next(s1.(control := s1.control + [Native(Called, false, s1.core)]));
    }
  }

  lemma SameBelowLess(core: Core, core': Core, k: nat, j: nat)
    requires SameBelow(core, core', k) && j <= k
    ensures SameBelow(core, core', j)
  {
    assert core'.list[..j] == core'.list[..k][..j] == core.list[..k][..j] == core.list[..j];
  }

  lemma IdledUnsaved(list: seq<Ctx>)
    ensures forall x <- Idled(list) :: x.saved.None?
  {
  }

  lemma CompressBalanced(core: Core, k: nat, f: Frame, f': Frame)
    requires k <= |core.list| && Flight(f) == [] && Flight(f') == Idled(core.list[k..])
    ensures forall c, id :: Balanced(core, f, Compress(core, k), f', c, id)
  {
    forall c, id ensures Balanced(core, f, Compress(core, k), f', c, id) {
      HoldsSplit(core.list, k, c, id);
      HoldsIdled(core.list[k..], c, id);
    }
  }

  lemma EntryPool(callers: seq<Frame>, below: seq<Frame>, f: Frame, at: Core, slots: nat)
    requires callers == below + [f] && Flight(f) == []
    requires forall c, id :: Conserved(at, callers, slots, c, id)
    ensures forall c, id :: Conserved(at, below, slots, c, id)
  {
    forall c, id ensures Conserved(at, below, slots, c, id) {
      assert Conserved(at, callers, slots, c, id);
      InFlightPushed(below, f, c, id);
    }
  }

  /** Back under the native frame: the thunk's activation, and the entry state it remembers. */
  lemma BackInThunk(s: State, slots: nat)
    requires Inv(s, slots) && Top(s).Native? && Top(s).origin == Called && !Top(s).busy
    ensures |s.control| >= 2
    ensures var s1, f := s.(control := Popped(s)), s.control[|s.control| - 2];
            && Body(s1, slots) && f.Run? && f.phase == InNative
            && Preserved(s.core, Top(s).at) && |Top(s).at.list| == |f.at.list| + 1
            && s.core.irq.depth == 0
            && forall c, id :: Conserved(Top(s).at, Popped(s1), slots, c, id)
  {
    var n := |s.control| - 1;
    var f := s.control[n - 1];
    assert FrameOk(s.core, s.control[n]);
    assert LinkAt(s.control, n);
    TruncatedQuiet(s, n, slots);
    assert FramePoolOk(s.control[n], s.control[..n], slots);
    EntryPool(s.control[..n], s.control[..n][..n - 1], f, Top(s).at, slots);
  }

  /** No leak: the thunk's context is still the newest. */
  lemma ReturnCleanKeeps(s: State, s1: State, f: Frame, at: Core, slots: nat)
    requires Body(s1, slots) && Top(s1) == f && f.Run? && f.phase == InNative
    requires OwnsHead(s1.core, f) && Preserved(s1.core, at) && |at.list| == |f.at.list| + 1
    requires forall c, id :: Conserved(at, Popped(s1), slots, c, id)
    requires s1.core.irq.depth == 0
    ensures Inv(s1.(control := SetTop(s1, Goto(f, Freeing([], at)))), slots)
  {
    var f' := Goto(f, Freeing([], at));
    var s' := s1.(control := SetTop(s1, f'));
    FindsOwn(s1, slots, f);
    assert FrameOk(s1.core, s1.control[|s1.control| - 1]);
    assert FramePoolOk(s1.control[|s1.control| - 1], s1.control[..|s1.control| - 1], slots);
    ConservedTop(s1.core, s1.core, s1.control, s'.control, f', slots);
    RetopBody(s1, s', f', slots);
  }

  /** A leak: everything above the thunk's context is unlinked. */
  lemma ReturnLeakedKeeps(s1: State, f: Frame, at: Core, slots: nat)
    requires Body(s1, slots) && Top(s1) == f && f.Run? && f.phase == InNative
    requires |f.at.list| < |s1.core.list| && Preserved(s1.core, at) && |at.list| == |f.at.list| + 1
    requires forall c, id :: Conserved(at, Popped(s1), slots, c, id)
    requires s1.core.irq.depth == 0
    ensures var k := |f.at.list| + 1;
            Inv(s1.(core := Compress(s1.core, k),
                    control := SetTop(s1, Goto(f, Repairing(Idled(s1.core.list[k..]), at)))), slots)
  {
    var k := |f.at.list| + 1;
    var f' := Goto(f, Repairing(Idled(s1.core.list[k..]), at));
    var core' := Compress(s1.core, k);
    var s' := s1.(core := core', control := SetTop(s1, f'));
    assert FrameOk(s1.core, s1.control[|s1.control| - 1]);
    assert FramePoolOk(s1.control[|s1.control| - 1], s1.control[..|s1.control| - 1], slots);
    CompressKeeps(s1.core, k);
    PreservedAlong(s1.core, core', f.at, k);
    PreservedAlong(s1.core, core', at, k);
    SameBelowLess(s1.core, core', k, |f.at.list|);
    IdledUnsaved(s1.core.list[k..]);
    CompressBalanced(s1.core, k, f, f');
    ConservedBalanced(s1, s', f', slots);
    RetopBody(s1, s', f', slots);
  }

  /** The outcome of the repair when something leaked: its assertions hold. */
  lemma ReturnOutcome(s: State, f: Frame, slots: nat)
    requires s.control != [] && Top(s).Native? && Top(s).origin == Called && !Top(s).busy
    requires |s.control| >= 2 && f == s.control[|s.control| - 2] && f.Run? && f.phase == InNative
    requires Body(s.(control := Popped(s)), slots) && !OwnsHead(s.core, f)
    ensures var k := |f.at.list| + 1;
            && k <= |s.core.list|
            && StepReturnFromNative(s) ==
               Next(s.(core := Compress(s.core, k), control := s.control[..|s.control| - 2] +
                         [Goto(f, Repairing(Idled(s.core.list[k..]), Top(s).at))]))
  {
    var k := |f.at.list| + 1;
    FindsOwn(s.(control := Popped(s)), slots, f);
    CompressKeeps(s.core, k);
    CountsPositive(Compress(s.core, k).count);
  }

  lemma ReturnStep(s: State, f: Frame, slots: nat)
    requires s.control != [] && Top(s).Native? && Top(s).origin == Called && !Top(s).busy
    requires |s.control| >= 2 && f == s.control[|s.control| - 2] && f.Run? && f.phase == InNative
    requires Body(s.(control := Popped(s)), slots) && s.core.irq.depth == 0
    requires Preserved(s.core, Top(s).at) && |Top(s).at.list| == |f.at.list| + 1
    requires forall c, id :: Conserved(Top(s).at, Popped(s.(control := Popped(s))), slots, c, id)
    ensures Good(StepReturnFromNative(s), slots)
  {
    var s1 := s.(control := Popped(s));
    assert s.control[..|s.control| - 2] == Popped(s1);
    if OwnsHead(s.core, f) {
      ReturnCleanKeeps(s, s1, f, Top(s).at, slots);
    } else {
      ReturnOutcome(s, f, slots);
      ReturnLeakedKeeps(s1, f, Top(s).at, slots);
    }
  }

  lemma ReturnFromNativeKeeps(s: State, slots: nat)
    requires Inv(s, slots)
    ensures Good(StepReturnFromNative(s), slots)
  {
    var t := Top(s);
    if t.Native? && t.origin == Called && !t.busy && |s.control| >= 2 {
      BackInThunk(s, slots);
      ReturnStep(s, s.control[|s.control| - 2], slots);
    }
  }

  lemma CountsPositive(count: PerCpu<int>)
    requires forall c :: count.Get(c) >= 0
    ensures count.x64 >= 0 && count.aarch64 >= 0
  {
    assert count.Get(X64) >= 0 && count.Get(AArch64) >= 0;
  }

  /** After the jump into CpuRunImage its own context goes as well. */
  lemma ExitKeeps(s1: State, f: Frame, slots: nat)
    requires Body(s1, slots) && Top(s1) == f && f.Run? && f.phase == InNative
    requires |f.at.list| <= |s1.core.list| && s1.core.irq.depth == 0
    ensures var k := |f.at.list|;
            Inv(s1.(core := Compress(s1.core, k),
                    control := SetTop(s1, Goto(f, ExitRepairing(Idled(s1.core.list[k..]))))), slots)
  {
    var k := |f.at.list|;
    var f' := Goto(f, ExitRepairing(Idled(s1.core.list[k..])));
    var core' := Compress(s1.core, k);
    var s' := s1.(core := core', control := SetTop(s1, f'));
    assert FrameOk(s1.core, s1.control[|s1.control| - 1]);
    assert FramePoolOk(s1.control[|s1.control| - 1], s1.control[..|s1.control| - 1], slots);
    CompressKeeps(s1.core, k);
    PreservedAlong(s1.core, core', f.at, k);
    IdledUnsaved(s1.core.list[k..]);
    CompressBalanced(s1.core, k, f, f');
    ConservedBalanced(s1, s', f', slots);
    RetopBody(s1, s', f', slots);
  }

  /** The jump lands in CpuRunImage with its activation's context still listed. */
  lemma ExitLands(s: State, d: nat, slots: nat)
    requires Inv(s, slots) && Top(s).Native? && !Top(s).busy && d < |s.control|
    requires s.control[d].Run? && NoEventAbove(s.control, d)
    ensures s.control[d].phase == InNative && Body(s.(control := s.control[..d + 1]), slots)
    ensures Find(s.core.list, s.control[d].cpu, s.control[d].id) == |s.control[d].at.list| < |s.core.list|
  {
    forall i {:trigger s.control[i]} | d + 1 <= i < |s.control| ensures Flight(s.control[i]) == [] {
      CallersInNative(s, slots, d, i);
    }
    CallersInNative(s, slots, d, d);
    TruncatedQuiet(s, d + 1, slots);
    FindsOwn(s, slots, s.control[d]);
  }

  /** The state after an accepted exit. */
  lemma ExitOutcome(s: State, record: nat, slots: nat)
    requires Inv(s, slots) && Top(s).Native? && Top(s).origin == Called && !Top(s).busy
    requires ExitAccepted(s.core, record) && ExitTargetLive(s, record)
    ensures var d := s.buffers[record];
            var f, k := s.control[d], |s.control[d].at.list|;
            && k <= |s.core.list|
            && StepExitImage(s, record) ==
               Next(State(Compress(s.core.(irq := End(Begin(s.core.irq))), k),
                          s.control[..d] + [Goto(f, ExitRepairing(Idled(s.core.list[k..])))], s.buffers))
  {
    var d := s.buffers[record];
    var core0 := s.core.(irq := End(Begin(s.core.irq)));
    ExitLands(s, d, slots);
    CompressKeeps(core0, |s.control[d].at.list|);
    CountsPositive(Compress(core0, |s.control[d].at.list|).count);
  }

  lemma ExitStateGood(s: State, d: nat, slots: nat)
    requires Inv(s, slots) && Top(s).Native? && !Top(s).busy && d < |s.control|
    requires s.control[d].Run? && NoEventAbove(s.control, d) && |s.control[d].at.list| <= |s.core.list|
    ensures var f, k := s.control[d], |s.control[d].at.list|;
            Inv(State(Compress(s.core, k), s.control[..d] + [Goto(f, ExitRepairing(Idled(s.core.list[k..])))], s.buffers), slots)
  {
    ExitLands(s, d, slots);
    ExitKeeps(s.(control := s.control[..d + 1]), s.control[d], slots);
    assert s.control[..d + 1][..d] == s.control[..d];
  }

  lemma ExitAcceptedKeeps(s: State, record: nat, slots: nat)
    requires Inv(s, slots) && Top(s).Native? && Top(s).origin == Called && !Top(s).busy
    requires ExitAccepted(s.core, record) && ExitTargetLive(s, record)
    ensures Good(StepExitImage(s, record), slots)
  {
    ExitOutcome(s, record, slots);
    IrqOnlyKeeps(s, End(Begin(s.core.irq)), slots);
    ExitStateGood(s.(core := s.core.(irq := End(Begin(s.core.irq)))), s.buffers[record], slots);
  }

  lemma ExitImageKeeps(s: State, record: nat, slots: nat)
    requires Inv(s, slots) && !ExitsWithoutImage(s, ExitImage(record))
    ensures Good(StepExitImage(s, record), slots)
  {
    var t := Top(s);
    if t.Native? && t.origin == Called && !t.busy && record in s.buffers {
      if !ExitAccepted(s.core, record) {
        IrqOnlyKeeps(s, End(Begin(s.core.irq)), slots);
      } else if ExitTargetLive(s, record) {
        ExitAcceptedKeeps(s, record, slots);
      }
    }
  }
}

/**
 * What callers see: nested runs, native calls and image exits leave no trace in the list,
 * the counters, the pools and the engines, whatever happened in between.
 */
module Transparency {
  import opened Words
  import opened RunModel
  import opened Machine
  import opened Invariant
  import opened Preservation
  import opened Theorems

  /** Same activation or same stretch of native code: history does not change. */
  ghost predicate SameFrame(f: Frame, f': Frame) {
    && f'.at == f.at && (f'.Run? <==> f.Run?)
    && (f.Run? ==> f'.id == f.id && f'.cpu == f.cpu && f'.image == f.image)
    && (Mending(f) && Mending(f') ==> f'.phase.entry == f.phase.entry)
  }

  lemma ReturnFreezesFrames(s: State, d: nat)
    requires Chained(s.control) && StepReturnFromNative(s).Next?
    requires d < |StepReturnFromNative(s).s.control|
    ensures d < |s.control| && SameFrame(s.control[d], StepReturnFromNative(s).s.control[d])
  {
    assert LinkAt(s.control, |s.control| - 1);
  }

  lemma ExitFreezesFrames(s: State, record: nat, d: nat)
    requires s.control != [] && StepExitImage(s, record).Next?
    requires d < |StepExitImage(s, record).s.control|
    ensures d < |s.control| && SameFrame(s.control[d], StepExitImage(s, record).s.control[d])
  {
  }

  lemma UnwindingFreezesFrames(s: State, a: Action, d: nat)
    requires Chained(s.control) && Unwinds(a) && Step(s, a).Next?
    requires d < |s.control| && d < |Step(s, a).s.control|
    ensures SameFrame(s.control[d], Step(s, a).s.control[d])
  {
    if a.ReturnFromNative? {
      ReturnFreezesFrames(s, d);
    } else if a.ExitImage? {
      ExitFreezesFrames(s, a.record, d);
    }
  }

  lemma NativeStepFreezesFrames(s: State, a: Action, d: nat)
    requires s.control != [] && NativeStep(a) && Step(s, a).Next?
    requires d < |s.control| && d < |Step(s, a).s.control|
    ensures SameFrame(s.control[d], Step(s, a).s.control[d])
  {
  }

  lemma AdvancingFreezesFrames(s: State, a: Action, d: nat)
    requires s.control != [] && !Unwinds(a) && Step(s, a).Next?
    requires d < |s.control| && d < |Step(s, a).s.control|
    ensures SameFrame(s.control[d], Step(s, a).s.control[d])
  {
    if NativeStep(a) {
      NativeStepFreezesFrames(s, a, d);
    }
  }

  /** A step never replaces a frame that is there before and after it. */
  lemma StepFreezesFrames(s: State, a: Action, s': State, d: nat)
    requires Chained(s.control) && Moves(s, a, s')
    requires d < |s.control| && d < |s'.control|
    ensures SameFrame(s.control[d], s'.control[d])
  {
    if Unwinds(a) {
      UnwindingFreezesFrames(s, a, d);
    } else {
      AdvancingFreezesFrames(s, a, d);
    }
  }

  /** Between moments i and j of a run the control stack always reaches above depth d. */
  ghost predicate Above(states: seq<State>, i: nat, j: nat, d: nat) {
    i <= j < |states| && forall k :: i <= k <= j ==> d < |states[k].control|
  }

  lemma NativeStepKeepsBelow(s: State, a: Action, s': State, d: nat)
    requires Moves(s, a, s') && NativeStep(a) && d < |s.control| - 1 && d < |s'.control| - 1
    ensures s'.control[d] == s.control[d]
  {
  }

  lemma UnwindingKeepsBelow(s: State, a: Action, s': State, d: nat)
    requires Moves(s, a, s') && Unwinds(a) && d < |s.control| - 1 && d < |s'.control| - 1
    ensures s'.control[d] == s.control[d]
  {
  }

  lemma ActivationKeepsBelow(s: State, a: Action, s': State, d: nat)
    requires Moves(s, a, s') && !NativeStep(a) && !Unwinds(a) && d < |s.control| - 1 && d < |s'.control| - 1
    ensures s'.control[d] == s.control[d]
  {
  }

  /** A step changes nothing below the frame on top. */
  lemma StepKeepsBelow(s: State, a: Action, s': State, d: nat)
    requires Moves(s, a, s') && d < |s.control| - 1 && d < |s'.control| - 1
    ensures s'.control[d] == s.control[d]
  {
    if NativeStep(a) {
      NativeStepKeepsBelow(s, a, s', d);
    } else if Unwinds(a) {
      UnwindingKeepsBelow(s, a, s', d);
    } else {
      ActivationKeepsBelow(s, a, s', d);
    }
  }

  /** While the control stack reaches above depth d, what is below that depth waits unchanged. */
  lemma {:induction false} RunKeepsBelow(states: seq<State>, actions: seq<Action>, i: nat, j: nat, d: nat, slots: nat)
    requires IsRun(states, actions, slots) && Above(states, i, j, d)
    ensures states[j].control[..d] == states[i].control[..d]
    decreases j
  {
    if i < j {
      RunKeepsBelow(states, actions, i, j - 1, d, slots);
      assert Moves(states[j - 1], actions[j - 1], states[j]);
      forall k: nat | k < d ensures states[j].control[k] == states[j - 1].control[k] {
        StepKeepsBelow(states[j - 1], actions[j - 1], states[j], k);
      }
    }
  }

  lemma {:induction false} RunFreezesFrame(states: seq<State>, actions: seq<Action>, i: nat, j: nat, d: nat, slots: nat)
    requires IsRun(states, actions, slots) && Above(states, i, j, d)
    ensures states[j].control[d].at == states[i].control[d].at
    decreases j
  {
    if i < j {
      RunChained(states, actions, j - 1, slots);
      RunFreezesFrame(states, actions, i, j - 1, d, slots);
      StepFreezesFrames(states[j - 1], actions[j - 1], states[j], d);
    }
  }

  /** Between moments i and j the activation at depth d is repairing or freeing what leaked. */
  ghost predicate MendingAll(states: seq<State>, i: nat, j: nat, d: nat) {
    Above(states, i, j, d) && forall k :: i <= k <= j ==> Mending(states[k].control[d])
  }

  lemma StepKeepsEntry(s: State, a: Action, s': State, d: nat)
    requires Chained(s.control) && Moves(s, a, s') && d < |s.control| && d < |s'.control|
    requires Mending(s.control[d]) && Mending(s'.control[d])
    ensures s'.control[d].phase.entry == s.control[d].phase.entry
  {
    StepFreezesFrames(s, a, s', d);
  }

  lemma RunStepKeepsEntry(states: seq<State>, actions: seq<Action>, j: nat, d: nat, slots: nat)
    requires IsRun(states, actions, slots) && j < |actions|
    requires d < |states[j].control| && Mending(states[j].control[d])
    requires d < |states[j + 1].control| && Mending(states[j + 1].control[d])
    ensures states[j + 1].control[d].phase.entry == states[j].control[d].phase.entry
  {
    RunChained(states, actions, j, slots);
    StepKeepsEntry(states[j], actions[j], states[j + 1], d);
  }

  lemma MendingEnds(states: seq<State>, i: nat, j: nat, d: nat)
    requires MendingAll(states, i, j, d) && i < j
    ensures MendingAll(states, i, j - 1, d)
    ensures d < |states[j - 1].control| && Mending(states[j - 1].control[d])
    ensures d < |states[j].control| && Mending(states[j].control[d])
  {
  }

  lemma {:induction false} RunKeepsEntry(states: seq<State>, actions: seq<Action>, i: nat, j: nat, d: nat, slots: nat)
    requires IsRun(states, actions, slots) && MendingAll(states, i, j, d)
    ensures states[j].control[d].phase.entry == states[i].control[d].phase.entry
    decreases j
  {
    if i < j {
      MendingEnds(states, i, j, d);
      RunKeepsEntry(states, actions, i, j - 1, d, slots);
      RunStepKeepsEntry(states, actions, j - 1, d, slots);
    }
  }

  /**
   * Two moments agree: the list with all its snapshots, the counters, which slots are free, and
   * the whole register file of every engine that has a context on the list.
   */
  ghost predicate Agrees(core: Core, core': Core) {
    && core'.list == core.list
    && (forall c :: core'.count.Get(c) == core.count.Get(c))
    && (forall c :: multiset(core'.free.Get(c)) == multiset(core.free.Get(c)))
    && (forall c | Count(core.list, c) > 0 :: core'.engine.Get(c) == core.engine.Get(c))
  }

  /** A history snapshot of full height agrees with the present. */
  lemma PreservedAgrees(core: Core, at: Core, control: seq<Frame>, slots: nat)
    requires Preserved(core, at) && |at.list| == |core.list| && ListOk(core) && ListOk(at)
    requires forall c, id :: Conserved(core, control, slots, c, id)
    requires forall c, id :: Conserved(at, control, slots, c, id)
    ensures Agrees(at, core)
  {
    assert at.list == core.list;
    forall c ensures multiset(core.free.Get(c)) == multiset(at.free.Get(c)) {
      forall id: nat ensures multiset(core.free.Get(c))[id] == multiset(at.free.Get(c))[id] {
        assert Conserved(core, control, slots, c, id) && Conserved(at, control, slots, c, id);
      }
    }
  }

  // ----- native calls -----

  /**
   * Once a native thunk has dealt with leaks, everything is as it was at its entry: the newest
   * context is its own, and the whole register file of its engine is the one at the call.
   */
  lemma MendedThunkAgrees(s: State, slots: nat)
    requires Inv(s, slots) && Top(s).Run? && Top(s).phase.Freeing? && Top(s).phase.chain == []
    requires ListOk(Top(s).phase.entry)
    ensures Agrees(Top(s).phase.entry, s.core) && OwnsHead(s.core, Top(s))
    ensures s.core.engine.Get(Top(s).cpu) == Top(s).phase.entry.engine.Get(Top(s).cpu)
  {
    var n := |s.control| - 1;
    var t := Top(s);
    TopOwnsHead(s, slots);
    assert FrameOk(s.core, s.control[n]) && FramePoolOk(s.control[n], s.control[..n], slots);
    assert s.control == Popped(s) + [t];
    forall c, id ensures Conserved(s.core, Popped(s), slots, c, id) {
      assert Conserved(s.core, s.control, slots, c, id);
      InFlightPushed(Popped(s), t, c, id);
    }
    PreservedAgrees(s.core, t.phase.entry, Popped(s), slots);
    CountPositive(s.core.list, |s.core.list| - 1);
    assert s.core.list[..|s.core.list|] == s.core.list;
  }

  /** The native frame a call pushes records the state of the call. */
  lemma CallRecordsEntry(s0: State, s1: State)
    requires Moves(s0, CallNative, s1)
    ensures |s1.control| == |s0.control| + 1 && s1.control[|s0.control|].at == s0.core
  {
  }

  /** Its return hands that record to the thunk. */
  lemma ReturnHandsEntryOver(s2: State, s3: State)
    requires Moves(s2, ReturnFromNative, s3)
    ensures |s3.control| == |s2.control| - 1 > 0
    ensures Mending(Top(s3)) && Top(s3).phase.entry == Top(s2).at
  {
  }

  /** From the call to the end of the repair, the thunk's record is the state of the call. */
  lemma ThunkRemembersEntry(
    states: seq<State>, actions: seq<Action>, i: nat, j: nat, k: nat, d: nat, slots: nat)
    requires IsRun(states, actions, slots) && i < j < k < |states| && d == |states[i].control|
    requires actions[i] == CallNative && actions[j] == ReturnFromNative
    requires Above(states, i + 1, j, d) && |states[j].control| == d + 1
    requires d > 0 && MendingAll(states, j + 1, k, d - 1)
    ensures states[k].control[d - 1].phase.entry == states[i].core
  {
    CallRecordsEntry(states[i], states[i + 1]);
    RunFreezesFrame(states, actions, i + 1, j, d, slots);
    ReturnHandsEntryOver(states[j], states[j + 1]);
    RunKeepsEntry(states, actions, j + 1, k, d - 1, slots);
  }

  lemma MendedMomentAgrees(states: seq<State>, actions: seq<Action>, k: nat, slots: nat)
    requires IsRun(states, actions, slots) && k <= |actions| && states[k].control != []
    requires Top(states[k]).Run? && Top(states[k]).phase.Freeing? && Top(states[k]).phase.chain == []
    requires ListOk(Top(states[k]).phase.entry)
    ensures var s := states[k];
            && Agrees(Top(s).phase.entry, s.core) && OwnsHead(s.core, Top(s))
            && s.core.engine.Get(Top(s).cpu) == Top(s).phase.entry.engine.Get(Top(s).cpu)
  {
    RunKeeps(states, actions, k, slots);
    MendedThunkAgrees(states[k], slots);
  }

  /**
   * Native-call transparency. At moment i of a run emulated code calls native code, which does
   * anything at all, to any depth, with any long jumps and events, and returns at moment j; the
   * thunk repairs and frees until moment k, when it is about to write the return value. Then the
   * driver agrees with moment i: the newest context is the thunk's own, and its engine's whole
   * register file is the one at the call. Everything below the thunk's activation waits unchanged.
   */
  lemma NativeCallTransparent(
    states: seq<State>, actions: seq<Action>, i: nat, j: nat, k: nat, d: nat, slots: nat)
    requires IsRun(states, actions, slots) && i < j < k < |states| && d == |states[i].control|
    requires actions[i] == CallNative && actions[j] == ReturnFromNative
    requires Above(states, i + 1, j, d) && |states[j].control| == d + 1
    requires d > 0 && MendingAll(states, j + 1, k, d - 1) && |states[k].control| == d
    requires Top(states[k]).phase.Freeing? && Top(states[k]).phase.chain == []
    ensures Agrees(states[i].core, states[k].core) && OwnsHead(states[k].core, Top(states[k]))
    ensures var c := Top(states[k]).cpu; states[k].core.engine.Get(c) == states[i].core.engine.Get(c)
    ensures states[k].control[..d - 1] == states[i].control[..d - 1]
  {
    RunKeepsBelow(states, actions, i, k, d - 1, slots);
    ThunkRemembersEntry(states, actions, i, j, k, d, slots);
    RunChained(states, actions, i, slots);
    MendedMomentAgrees(states, actions, k, slots);
  }

  // ----- returning runs and exiting images -----

  /** An activation about to disappear: list and engines are already those of its caller. */
  lemma EndedRunAgrees(s: State, a: Action, s': State, slots: nat)
    requires Inv(s, slots) && (a == FreeSelf || a == EndExit) && Moves(s, a, s')
    requires ListOk(Top(s).at)
    ensures Agrees(Top(s).at, s'.core) && s'.control == Popped(s)
  {
    var n := |s.control| - 1;
    MoveKeeps(s, a, s', slots);
    assert FrameOk(s.core, s.control[n]) && FramePoolOk(s.control[n], s.control[..n], slots);
    PreservedAgrees(s'.core, Top(s).at, Popped(s), slots);
  }

  lemma CallRunRecordsCaller(s0: State, cpu: Cpu, image: Option<nat>, s1: State)
    requires Moves(s0, CallRun(cpu, image), s1) && s0.core.free.Get(cpu) != []
    ensures |s1.control| == |s0.control| + 1 && s1.control[|s0.control|].at == s0.core
    ensures s1.control[..|s0.control|] == s0.control
  {
  }

  lemma EndedMomentAgrees(states: seq<State>, actions: seq<Action>, j: nat, slots: nat)
    requires IsRun(states, actions, slots) && j < |actions| && states[j].control != []
    requires (actions[j] == FreeSelf || actions[j] == EndExit) && ListOk(Top(states[j]).at)
    ensures Agrees(Top(states[j]).at, states[j + 1].core) && states[j + 1].control == Popped(states[j])
  {
    RunKeeps(states, actions, j, slots);
    EndedRunAgrees(states[j], actions[j], states[j + 1], slots);
  }

  /**
   * Run transparency. At moment i of a run native code starts emulated code, as a function or as
   * an image. Whether it returns, fails, or its image exits from any depth, once the activation
   * goes, after moment j, the driver agrees with moment i.
   */
  lemma RunTransparent(
    states: seq<State>, actions: seq<Action>, i: nat, j: nat, cpu: Cpu, image: Option<nat>, slots: nat)
    requires IsRun(states, actions, slots) && i < j < |actions|
    requires actions[i] == CallRun(cpu, image) && states[i].core.free.Get(cpu) != []
    requires Above(states, i + 1, j, |states[i].control|) && |states[j].control| == |states[i].control| + 1
    requires actions[j] == FreeSelf || actions[j] == EndExit
    ensures Agrees(states[i].core, states[j + 1].core) && states[j + 1].control == states[i].control
  {
    CallRunRecordsCaller(states[i], cpu, image, states[i + 1]);
    RunKeepsBelow(states, actions, i + 1, j, |states[i].control|, slots);
    RunFreezesFrame(states, actions, i + 1, j, |states[i].control|, slots);
    RunChained(states, actions, i, slots);
    EndedMomentAgrees(states, actions, j, slots);
  }

  // ----- events -----

  lemma EventRecordsInterrupted(s0: State, s1: State)
    requires Moves(s0, FireEvent, s1)
    ensures |s1.control| == |s0.control| + 1 && s1.control[..|s0.control|] == s0.control
    ensures s1.control[|s0.control|] == Native(Event, false, s0.core)
  {
  }

  lemma EventReturns(s: State, s': State, slots: nat)
    requires Inv(s, slots) && Moves(s, ReturnFromEvent, s') && ListOk(Top(s).at)
    ensures Agrees(Top(s).at, s'.core) && s'.control == Popped(s)
  {
    var n := |s.control| - 1;
    assert FrameOk(s.core, s.control[n]) && FramePoolOk(s.control[n], s.control[..n], slots);
    MoveKeeps(s, ReturnFromEvent, s', slots);
    PreservedAgrees(s'.core, Top(s).at, Popped(s), slots);
  }

  lemma EventMomentAgrees(states: seq<State>, actions: seq<Action>, j: nat, slots: nat)
    requires IsRun(states, actions, slots) && j < |actions| && actions[j] == ReturnFromEvent
    requires states[j].control != [] && ListOk(Top(states[j]).at)
    ensures Agrees(Top(states[j]).at, states[j + 1].core) && states[j + 1].control == Popped(states[j])
  {
    RunKeeps(states, actions, j, slots);
    EventReturns(states[j], states[j + 1], slots);
  }

  /**
   * Event transparency. At moment i of a run an event interrupts an activation, its handler does
   * anything, emulated code included, and returns at moment j. Then the activation is in the phase it
   * was interrupted in, everything below it waits unchanged, and the driver agrees with moment i.
   */
  lemma EventTransparent(states: seq<State>, actions: seq<Action>, i: nat, j: nat, slots: nat)
    requires IsRun(states, actions, slots) && i < j < |actions|
    requires actions[i] == FireEvent && actions[j] == ReturnFromEvent
    requires Above(states, i + 1, j, |states[i].control|) && |states[j].control| == |states[i].control| + 1
    ensures Agrees(states[i].core, states[j + 1].core) && states[j + 1].control == states[i].control
  {
    var d := |states[i].control|;
    EventRecordsInterrupted(states[i], states[i + 1]);
    RunKeepsBelow(states, actions, i + 1, j, d, slots);
    RunFreezesFrame(states, actions, i + 1, j, d, slots);
    RunChained(states, actions, i, slots);
    EventMomentAgrees(states, actions, j, slots);
  }

  /** The innermost image context on the list is the one its live activation owns. */
  lemma InnermostIsOwn(s: State, record: nat, slots: nat)
    requires Inv(s, slots) && ExitAccepted(s.core, record)
    requires exists d :: 0 <= d < |s.control| && OwnsImage(s.control[d], record)
    ensures forall d :: 0 <= d < |s.control| && OwnsImage(s.control[d], record) ==>
              InnermostImage(s.core.list) == Some(|s.control[d].at.list|)
  {
    forall d | 0 <= d < |s.control| && OwnsImage(s.control[d], record)
      ensures InnermostImage(s.core.list) == Some(|s.control[d].at.list|)
    {
      var n := |s.control[d].at.list|;
      assert FrameOk(s.core, s.control[d]);
      var p := InnermostImage(s.core.list).value;
      assert s.core.list[p].image == s.core.list[n].image;
    }
  }

  /** An activation with its context on the list that runs the image of this record. */
  predicate OwnsImage(f: Frame, record: nat) { f.Run? && OnList(f.phase) && f.image == Some(record) }

  /** An accepted exit unlinks exactly the image's own context and everything newer. */
  lemma AcceptedExitUnlinks(s: State, record: nat, slots: nat)
    requires Inv(s, slots) && Top(s).Native? && Top(s).origin == Called && !Top(s).busy
    requires ExitAccepted(s.core, record) && ExitTargetLive(s, record)
    ensures Step(s, ExitImage(record)).Next?
    ensures var f := s.control[s.buffers[record]];
            && OwnsImage(f, record) && |f.at.list| < |s.core.list|
            && Step(s, ExitImage(record)).s.core.list == s.core.list[..|f.at.list|] == f.at.list
  {
    var d := s.buffers[record];
    ExitOutcome(s, record, slots);
    ExitLands(s, d, slots);
    assert FrameOk(s.core, s.control[d]);
  }

  /**
   * If the exit check accepts a handle whose activation is live, the image was the innermost one
   * on the list, and what goes is exactly its own context and everything newer, among which there
   * is no other image.
   */
  lemma AcceptedExitIsInnermost(s: State, record: nat, slots: nat)
    requires Reachable(s, slots) && Top(s).Native? && Top(s).origin == Called && !Top(s).busy
    requires ExitAccepted(s.core, record) && ExitTargetLive(s, record)
    ensures Step(s, ExitImage(record)).Next?
    ensures var f := s.control[s.buffers[record]];
            && Step(s, ExitImage(record)).s.core.list == f.at.list
            && InnermostImage(s.core.list) == Some(|f.at.list|)
            && s.core.list[..|f.at.list|] == f.at.list
            && forall p :: |f.at.list| < p < |s.core.list| ==> s.core.list[p].image.None?
  {
    ReachableInv(s, slots);
    AcceptedExitUnlinks(s, record, slots);
    InnermostIsOwn(s, record, slots);
  }

  /** The check accepts at most the innermost image on the list; with none listed it accepts nothing. */
  lemma ExitAcceptedIff(core: Core, record: nat)
    ensures ExitAccepted(core, record) <==>
            exists p :: 0 <= p < |core.list| && core.list[p].image == Some(record)
                        && forall q :: p < q < |core.list| ==> core.list[q].image.None?
  {
    if ExitAccepted(core, record) {
      var p := InnermostImage(core.list).value;
      assert core.list[p].image == Some(record);
    }
  }

  /**
   * A refused exit returns to the caller with nothing changed: an unknown handle, or one that is not
   * the innermost image's while another image is listed.
   */
  lemma RefusedExitChangesNothing(s: State, record: nat, slots: nat)
    requires Reachable(s, slots) && Top(s).Native? && Top(s).origin == Called && !Top(s).busy
    requires record !in s.buffers || (!ExitAccepted(s.core, record) && exists x <- s.core.list :: x.image.Some?)
    ensures Step(s, ExitImage(record)).Next?
    ensures var s' := Step(s, ExitImage(record)).s;
            && s' == s.(core := s.core.(irq := s'.core.irq))
            && s'.core.irq.hw == s.core.irq.hw && s'.core.irq.depth == s.core.irq.depth == 0
  {
    ReachableShape(s, slots);
    AssertionsFireIff(s, ExitImage(record), slots);
    if record in s.buffers {
      var x :| x in s.core.list && x.image.Some?;
    }
  }

  /** An activation of the image is on the native stack with no event handler above it. */
  lemma LiveTargetOnStack(s: State, record: nat, slots: nat)
    requires Reachable(s, slots)
    ensures ExitTargetLive(s, record) <==>
            exists d: nat :: d < |s.control| && RunsImage(s.control[d], record) && NoEventAbove(s.control, d)
  {
    ReachableInv(s, slots);
    if d: nat :| d < |s.control| && RunsImage(s.control[d], record) && NoEventAbove(s.control, d) {
      assert BufferOk(s, d, s.control[d]);
    }
    if ExitTargetLive(s, record) {
      assert RunsImage(s.control[s.buffers[record]], record);
    }
  }

  predicate RunsImage(f: Frame, record: nat) { f.Run? && f.image == Some(record) }

  lemma BufferStays(s: State, a: Action, s': State, record: nat)
    requires Moves(s, a, s') && record in s.buffers
    ensures record in s'.buffers && s'.buffers[record] == s.buffers[record]
  {
  }

  /** A new frame never runs an image that was started before. */
  lemma NewFrameRunsAnother(s: State, a: Action, s': State, record: nat, d: nat)
    requires Moves(s, a, s') && record in s.buffers && |s.control| <= d < |s'.control|
    ensures !RunsImage(s'.control[d], record)
  {
  }

  lemma StepKeepsImageFrame(s: State, a: Action, s': State, record: nat, d: nat)
    requires Chained(s.control) && Moves(s, a, s') && record in s.buffers && d < |s'.control|
    ensures RunsImage(s'.control[d], record) <==> d < |s.control| && RunsImage(s.control[d], record)
  {
    if d < |s.control| {
      StepFreezesFrames(s, a, s', d);
    } else {
      NewFrameRunsAnother(s, a, s', record, d);
    }
  }

  /** From its start on, an image's jump buffer names the depth of the start. */
  lemma {:induction false} ImageFrameAlong(
    states: seq<State>, actions: seq<Action>, i: nat, j: nat, cpu: Cpu, record: nat, slots: nat)
    requires IsRun(states, actions, slots) && i < j <= |actions|
    requires actions[i] == CallRun(cpu, Some(record)) && states[i].core.free.Get(cpu) != []
    ensures var d := |states[i].control|;
            && record in states[j].buffers && states[j].buffers[record] == d
            && (Above(states, i + 1, j, d) <==> d < |states[j].control| && RunsImage(states[j].control[d], record))
    decreases j
  {
    assert Moves(states[j - 1], actions[j - 1], states[j]);
    if j > i + 1 {
      ImageFrameAlong(states, actions, i, j - 1, cpu, record, slots);
      RunChained(states, actions, j - 1, slots);
      BufferStays(states[j - 1], actions[j - 1], states[j], record);
      var d := |states[i].control|;
      if d < |states[j].control| {
        StepKeepsImageFrame(states[j - 1], actions[j - 1], states[j], record, d);
      }
    }
  }

  /**
   * The frame an image's jump buffer points at is live exactly as long as native code has not gone
   * back below the call that started the image, and no event handler is running on top of it. An
   * accepted exit is thus sound exactly for images whose start has neither returned nor been
   * jumped over.
   */
  lemma ExitTargetLiveIff(
    states: seq<State>, actions: seq<Action>, i: nat, j: nat, cpu: Cpu, record: nat, slots: nat)
    requires IsRun(states, actions, slots) && i < j <= |actions|
    requires actions[i] == CallRun(cpu, Some(record)) && states[i].core.free.Get(cpu) != []
    ensures ExitTargetLive(states[j], record) <==>
            Above(states, i + 1, j, |states[i].control|) && NoEventAbove(states[j].control, |states[i].control|)
  {
    ImageFrameAlong(states, actions, i, j, cpu, record, slots);
  }
}

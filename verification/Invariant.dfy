/** What holds in every reachable state of the run machine, and why every step keeps it. */
module Invariant {
  import opened Words
  import opened RunModel
  import opened Machine

  // ----- the invariant -----

  /** Everything listed at moment at is still listed, and its engines can be brought back. */
  ghost predicate Preserved(core: Core, at: Core) {
    && at.list <= core.list
    && forall c | Count(at.list, c) > 0 ::
         Unwound(core.list, core.engine, |at.list|).Get(c) == at.engine.Get(c)
  }

  /** The list length up to and including the frame's own context. */
  function Height(f: Frame): nat { |f.at.list| + if f.Run? && OnList(f.phase) then 1 else 0 }

  /** What consecutive frames of the control stack have to do with each other. */
  ghost predicate Link(below: Frame, f: Frame) {
    && (f.Run? <==> below.Native?)
    && !Critical(below)
    && (f.Native? ==> f.origin != Base && (f.origin == Called <==> below.phase == InNative)
                      && |f.at.list| == Height(below))
    && (f.Run? ==> |below.at.list| <= |f.at.list| && (below.origin == Event ==> |f.at.list| == |below.at.list|))
  }

  ghost predicate Chained(control: seq<Frame>) {
    && control != [] && control[0].Native? && control[0].origin == Base
    && forall i :: 0 < i < |control| ==> LinkAt(control, i)
  }

  ghost predicate LinkAt(control: seq<Frame>, i: int) {
    0 < i < |control| && Link(control[i - 1], control[i])
  }

  ghost predicate FrameOk(core: Core, f: Frame) {
    && Preserved(core, f.at)
    && (f.Run? && OnList(f.phase) ==>
          |f.at.list| < |core.list| &&
          var x := core.list[|f.at.list|];
          x.id == f.id && x.cpu == f.cpu && x.image == f.image && x.started == Started(f.phase))
    && (Mending(f) ==> Preserved(core, f.phase.entry) && |f.phase.entry.list| == Height(f))
    && (forall x <- Flight(f) :: x.saved.None?)
  }

  ghost predicate TopOk(s: State)
    requires s.control != []
  {
    var t := Top(s);
    && (t.Run? ==> t.phase != InNative && |s.core.list| == Height(t))
    && (t.Native? && t.origin == Event ==> |s.core.list| == |t.at.list|)
    && s.core.irq.depth == (if Critical(t) then 1 else 0)
    && (Critical(t) ==> !s.core.irq.hw)
  }

  function InFlight(control: seq<Frame>, c: Cpu, id: nat): nat {
    if control == [] then 0
    else InFlight(control[..|control| - 1], c, id) + Holds(Flight(control[|control| - 1]), c, id)
  }

  /** Slot id of CPU c is free once, listed once or in flight once. */
  ghost predicate Conserved(core: Core, control: seq<Frame>, slots: nat, c: Cpu, id: nat) {
    multiset(core.free.Get(c))[id] + Holds(core.list, c, id) + InFlight(control, c, id) ==
    if id < slots then 1 else 0
  }

  ghost predicate PoolOk(s: State, slots: nat) {
    && (forall c, id :: Conserved(s.core, s.control, slots, c, id))
    && forall i | 0 <= i < |s.control| :: FramePoolOk(s.control[i], s.control[..i], slots)
  }

  ghost predicate FramePoolOk(f: Frame, below: seq<Frame>, slots: nat) {
    && (forall c, id :: Conserved(f.at, below, slots, c, id))
    && (Mending(f) ==> forall c, id :: Conserved(f.phase.entry, below, slots, c, id))
  }

  ghost predicate BuffersOk(s: State) {
    && (forall i {:trigger s.control[i]} :: 0 <= i < |s.control| ==> BufferOk(s, i, s.control[i]))
    && (forall p {:trigger s.core.list[p]} :: 0 <= p < |s.core.list| && s.core.list[p].image.Some? ==>
          s.core.list[p].image.value in s.buffers)
    && (forall p, q :: 0 <= p < q < |s.core.list| && s.core.list[p].image.Some? ==>
          s.core.list[p].image != s.core.list[q].image)
  }

  ghost predicate BufferOk(s: State, i: nat, f: Frame) {
    f.Run? && f.image.Some? ==>
      && f.image.value in s.buffers && s.buffers[f.image.value] == i
      && (f.phase.Allocated? ==>
            forall p {:trigger s.core.list[p]} :: 0 <= p < |s.core.list| ==> s.core.list[p].image != f.image)
  }

  /** The invariant without what only the frame on top promises. */
  ghost predicate Body(s: State, slots: nat) {
    && Chained(s.control)
    && (forall i {:trigger s.control[i]} :: 0 <= i < |s.control| ==> FrameOk(s.core, s.control[i]))
    && ListOk(s.core)
    && PoolOk(s, slots)
    && BuffersOk(s)
  }

  ghost predicate Inv(s: State, slots: nat) { Body(s, slots) && TopOk(s) }

  ghost predicate Good(o: Outcome, slots: nat) { o.Disabled? || (o.Next? && Inv(o.s, slots)) }

  // ----- consequences -----

  lemma PreservedAlong(core: Core, core': Core, at: Core, k: nat)
    requires Preserved(core, at) && SameBelow(core, core', k) && |at.list| <= k
    ensures Preserved(core', at)
  {
    var n := |at.list|;
    assert core.list[..n] == at.list;
    assert core'.list[..n] == core'.list[..k][..n] == core.list[..k][..n] == core.list[..n];
  }

  lemma PreservedNow(core: Core)
    ensures Preserved(core, core)
  {
  }

  lemma {:induction false} HeightsGrow(control: seq<Frame>, i: nat, j: nat)
    requires Chained(control) && i < j < |control|
    ensures Height(control[i]) <= |control[j].at.list|
    decreases j
  {
    assert LinkAt(control, j);
    if i < j - 1 {
      HeightsGrow(control, i, j - 1);
    }
  }

  lemma {:induction false} HoldsTwice(list: seq<Ctx>, p: nat, q: nat, c: Cpu, id: nat)
    requires p < |list| && q < |list| && p != q && IsSlot(list[p], c, id) && IsSlot(list[q], c, id)
    ensures Holds(list, c, id) >= 2
    decreases |list|
  {
    var n := |list| - 1;
    if p < n && q < n {
      HoldsTwice(list[..n], p, q, c, id);
    } else {
      HoldsOnce(list[..n], if p == n then q else p, c, id);
    }
  }

  lemma {:induction false} HoldsOnce(list: seq<Ctx>, p: nat, c: Cpu, id: nat)
    requires p < |list| && IsSlot(list[p], c, id)
    ensures Holds(list, c, id) >= 1
    decreases |list|
  {
    if p < |list| - 1 {
      HoldsOnce(list[..|list| - 1], p, c, id);
    }
  }

  /** No two listed contexts are the same pool slot, so searching for a frame's context finds it. */
  lemma FindsOwn(s: State, slots: nat, f: Frame)
    requires Body(s, slots) && f in s.control && f.Run? && OnList(f.phase)
    ensures Find(s.core.list, f.cpu, f.id) == |f.at.list| < |s.core.list|
  {
    var i :| 0 <= i < |s.control| && s.control[i] == f;
    var n, p := |f.at.list|, Find(s.core.list, f.cpu, f.id);
    assert IsSlot(s.core.list[n], f.cpu, f.id);
    assert Conserved(s.core, s.control, slots, f.cpu, f.id);
    if p != n {
      HoldsTwice(s.core.list, n, p, f.cpu, f.id);
    }
  }

  lemma {:induction false} InFlightFrame(control: seq<Frame>, i: nat, c: Cpu, id: nat)
    requires i < |control|
    ensures InFlight(control, c, id) >= Holds(Flight(control[i]), c, id)
    decreases |control|
  {
    if i < |control| - 1 {
      InFlightFrame(control[..|control| - 1], i, c, id);
    }
  }

  lemma InFlightPushed(control: seq<Frame>, f: Frame, c: Cpu, id: nat)
    ensures InFlight(control + [f], c, id) == InFlight(control, c, id) + Holds(Flight(f), c, id)
  {
    assert (control + [f])[..|control|] == control;
  }

  /** Only an activation holds contexts in flight. */
  lemma {:induction false} InFlightQuiet(control: seq<Frame>, k: nat, c: Cpu, id: nat)
    requires k <= |control|
    requires forall i {:trigger control[i]} :: k <= i < |control| ==> Flight(control[i]) == []
    ensures InFlight(control, c, id) == InFlight(control[..k], c, id)
    decreases |control|
  {
    if k == |control| {
      assert control[..k] == control;
    } else {
      assert control[..|control| - 1][..k] == control[..k];
      InFlightQuiet(control[..|control| - 1], k, c, id);
    }
  }
}

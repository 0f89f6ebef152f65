/**
 * The repair the records make in one call, CpuCompressLeakedContexts with both of its loops, is what
 * the run machine does in many steps.
 */
module Refinement {
  import opened Interrupts
  import opened RunModel
  import opened RunContexts
  import opened Machine
  import Invariant
  import opened Preservation
  import opened Theorems

  predicate MayFree(p: Phase) { p.Freeing? || p.ExitFreeing? }

  /** The freeing loop of the machine: n turns. */
  function FreeTurns(s: State, n: nat): State
    decreases n
  {
    if n == 0 || s.control == [] then s
    else
      var o := Step(s, FreeLeaked);
      if o.Next? then FreeTurns(o.s, n - 1) else s
  }

  /** The step that unlinks, the end of its section, and n turns of the freeing loop. */
  function Repaired(s: State, a: Action, n: nat): State
    requires s.control != []
  {
    var o := Step(s, a);
    if o.Next? && o.s.control != [] then
      var ended := Step(o.s, EndSection);
      if ended.Next? then FreeTurns(ended.s, n) else o.s
    else s
  }

  /** One turn in the middle of a run. */
  lemma OneTurn(s: State, slots: nat)
    requires Reachable(s, slots) && Top(s).Run? && MayFree(Top(s).phase) && Top(s).phase.chain != []
    ensures Step(s, FreeLeaked).Next?
    ensures var s', chain := Step(s, FreeLeaked).s, Top(s).phase.chain;
            var n := |chain| - 1;
            && Reachable(s', slots) && s'.buffers == s.buffers
            && s'.core == PutSlot(s.core, chain[n].cpu, chain[n].id)
            && s'.control == SetTop(s, Goto(Top(s), Shortened(Top(s).phase, n)))
  {
    AssertionsFireIff(s, FreeLeaked, slots);
    StepReaches(s, FreeLeaked, Step(s, FreeLeaked).s, slots);
  }

  /** The loop frees the whole chain, newest first, as the loop over the records does. */
  lemma {:induction false} TurnsFreeChain(s: State, slots: nat)
    requires Reachable(s, slots) && Top(s).Run? && MayFree(Top(s).phase)
    ensures var s', p := FreeTurns(s, |Top(s).phase.chain|), Top(s).phase;
            && Reachable(s', slots) && s'.buffers == s.buffers
            && s'.core == s.core.(free := Freed(s.core.free, p.chain))
            && s'.control == SetTop(s, Goto(Top(s), Shortened(p, 0)))
    decreases |Top(s).phase.chain|
  {
    var p := Top(s).phase;
    if p.chain == [] {
      assert p.chain[..0] == p.chain;
      assert SetTop(s, Top(s)) == s.control;
    } else {
      var n := |p.chain| - 1;
      OneTurn(s, slots);
      var s1 := Step(s, FreeLeaked).s;
      TurnsFreeChain(s1, slots);
      assert p.chain[..n][..0] == p.chain[..0];
      assert s1.control[..|s1.control| - 1] == s.control[..|s.control| - 1];
    }
  }

  /** The end of the unlinking section. */
  lemma SectionEnds(s: State, slots: nat)
    requires Reachable(s, slots) && Top(s).Run? && (Top(s).phase.Repairing? || Top(s).phase.ExitRepairing?)
    ensures Step(s, EndSection).Next?
    ensures var s', p := Step(s, EndSection).s, Top(s).phase;
            && Reachable(s', slots) && s'.buffers == s.buffers && s'.core == s.core.(irq := End(s.core.irq))
            && s'.control == SetTop(s, Goto(Top(s), if p.Repairing? then Freeing(p.chain, p.entry) else ExitFreeing(p.chain)))
  {
    AssertionsFireIff(s, EndSection, slots);
    StepReaches(s, EndSection, Step(s, EndSection).s, slots);
  }

  /** From an open unlinking section to the end of the freeing loop. */
  lemma RepairEnds(s: State, slots: nat)
    requires Reachable(s, slots) && Top(s).Run? && (Top(s).phase.Repairing? || Top(s).phase.ExitRepairing?)
    ensures Step(s, EndSection).Next?
    ensures var s', p := FreeTurns(Step(s, EndSection).s, |Top(s).phase.chain|), Top(s).phase;
            && Reachable(s', slots)
            && s'.core == s.core.(irq := End(s.core.irq), free := Freed(s.core.free, p.chain))
            && s'.control == SetTop(s, Goto(Top(s), if p.Repairing? then Freeing([], p.entry) else ExitFreeing([])))
  {
    SectionEnds(s, slots);
    var s1 := Step(s, EndSection).s;
    TurnsFreeChain(s1, slots);
    assert s1.control[..|s1.control| - 1] == s.control[..|s.control| - 1];
    assert Top(s).phase.chain[..0] == [];
  }

  lemma ThunkBelow(s: State, slots: nat)
    requires Reachable(s, slots) && Top(s).Native? && Top(s).origin == Called && !Top(s).busy
    ensures |s.control| >= 2 && s.control[|s.control| - 2].Run? && s.control[|s.control| - 2].phase == InNative
    ensures Invariant.Body(s.(control := Popped(s)), slots)
  {
    ReachableInv(s, slots);
    BackInThunk(s, slots);
  }

  lemma LeakOutcome(s: State, slots: nat)
    requires Reachable(s, slots) && Top(s).Native? && Top(s).origin == Called && !Top(s).busy
    requires |s.control| >= 2 && s.control[|s.control| - 2].Run? && !OwnsHead(s.core, s.control[|s.control| - 2])
    ensures var f := s.control[|s.control| - 2];
            var k := |f.at.list| + 1;
            && k <= |s.core.list|
            && Step(s, ReturnFromNative) ==
               Next(s.(core := Compress(s.core, k), control := s.control[..|s.control| - 2] +
                         [Goto(f, Repairing(Idled(s.core.list[k..]), Top(s).at))]))
  {
    ThunkBelow(s, slots);
    ReturnOutcome(s, s.control[|s.control| - 2], slots);
  }

  /** A native call returns over a leak. */
  lemma LeakUnlinked(s: State, slots: nat)
    requires Reachable(s, slots) && Top(s).Native? && Top(s).origin == Called && !Top(s).busy
    requires |s.control| >= 2 && s.control[|s.control| - 2].Run? && !OwnsHead(s.core, s.control[|s.control| - 2])
    ensures Step(s, ReturnFromNative).Next?
    ensures var s', f := Step(s, ReturnFromNative).s, s.control[|s.control| - 2];
            var k := |f.at.list| + 1;
            && Reachable(s', slots) && k <= |s.core.list| && s'.core == Compress(s.core, k)
            && s'.control == s.control[..|s.control| - 2] + [Goto(f, Repairing(Idled(s.core.list[k..]), Top(s).at))]
  {
    LeakOutcome(s, slots);
    StepReaches(s, ReturnFromNative, Step(s, ReturnFromNative).s, slots);
  }

  /**
   * A thunk's repair: return, section and loop take the machine to the state the call of
   * CpuCompressLeakedContexts leaves on the records.
   */
  lemma ThunkRepairAgrees(s: State, slots: nat)
    requires Reachable(s, slots) && Top(s).Native? && Top(s).origin == Called && !Top(s).busy
    requires |s.control| >= 2 && s.control[|s.control| - 2].Run? && !OwnsHead(s.core, s.control[|s.control| - 2])
    ensures var f := s.control[|s.control| - 2];
            var k := |f.at.list| + 1;
            && k <= |s.core.list|
            && var s' := Repaired(s, ReturnFromNative, |s.core.list| - k);
            && s'.core == CompressedAndFreed(s.core, k)
            && s'.control == s.control[..|s.control| - 2] + [Goto(f, Freeing([], Top(s).at))]
  {
    LeakUnlinked(s, slots);
    var s1 := Step(s, ReturnFromNative).s;
    RepairEnds(s1, slots);
    assert s1.control[..|s1.control| - 1] == s.control[..|s.control| - 2];
  }

  lemma ExitUnlinked(s: State, record: nat, slots: nat)
    requires Reachable(s, slots) && Top(s).Native? && Top(s).origin == Called && !Top(s).busy
    requires ExitAccepted(s.core, record) && ExitTargetLive(s, record)
    ensures Step(s, ExitImage(record)).Next?
    ensures var s', d := Step(s, ExitImage(record)).s, s.buffers[record];
            var k := |s.control[d].at.list|;
            && Reachable(s', slots) && k <= |s.core.list|
            && s'.core == Compress(s.core.(irq := End(Begin(s.core.irq))), k)
            && s'.control == s.control[..d] + [Goto(s.control[d], ExitRepairing(Idled(s.core.list[k..])))]
  {
    ReachableInv(s, slots);
    ExitOutcome(s, record, slots);
    StepReaches(s, ExitImage(record), Step(s, ExitImage(record)).s, slots);
  }

  /**
   * An image exit: check, jump, section and loop take the machine to the state the call of
   * CpuCompressLeakedContexts on image exit leaves on the records, with CpuRunImage about to go back
   * to its caller.
   */
  lemma ImageExitAgrees(s: State, record: nat, slots: nat)
    requires Reachable(s, slots) && Top(s).Native? && Top(s).origin == Called && !Top(s).busy
    requires ExitAccepted(s.core, record) && ExitTargetLive(s, record)
    ensures var d := s.buffers[record];
            var k := |s.control[d].at.list|;
            && k <= |s.core.list|
            && var s' := Repaired(s, ExitImage(record), |s.core.list| - k);
            && s'.core == CompressedAndFreed(s.core.(irq := End(Begin(s.core.irq))), k)
            && s'.control == s.control[..d] + [Goto(s.control[d], ExitFreeing([]))]
  {
    ExitUnlinked(s, record, slots);
    var s1 := Step(s, ExitImage(record)).s;
    RepairEnds(s1, slots);
    assert s1.control[..|s1.control| - 1] == s.control[..s.buffers[record]];
  }

  /** The repair leaves clients the interrupt state they had, and no section open. */
  lemma RepairKeepsInterrupts(core: Core, k: nat)
    requires k <= |core.list| && core.irq.depth == 0
    ensures var core' := CompressedAndFreed(core, k);
            core'.irq.depth == 0 && core'.irq.hw == core.irq.hw && Observed(core'.irq) == Observed(core.irq)
  {
  }
}

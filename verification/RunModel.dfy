/**
 * The state every activation of emulated code shares, as a value, and the operations of
 * Cpu.c on it. Lists of contexts are written oldest first: the last element is mTopContext.
 */
module RunModel {
  import opened Words
  import opened Interrupts
  import opened Thunks

  /**
   * A CpuRunContext on the list. saved is the snapshot in PrevUcContext while
   * CRC_HAVE_SAVED_UC_CONTEXT is set. started is for specification only: the context has
   * captured the engine and not given it back yet.
   */
  datatype Ctx = Ctx(id: nat, cpu: Cpu, image: Option<nat>, started: bool, saved: Option<Regs>)

  /**
   * list: the PrevContext chain; engine: one register file per CPU; count: CpuContext.Contexts;
   * free: the free queue of each CPU's context pool; initial: CpuContext.InitialState;
   * magic: the address of CpuReturnToNative.
   */
  datatype Core = Core(
    list: seq<Ctx>,
    engine: PerCpu<Regs>,
    count: PerCpu<int>,
    free: PerCpu<seq<nat>>,
    irq: Irq,
    initial: PerCpu<Regs>,
    magic: Word)

  function Count(list: seq<Ctx>, c: Cpu): nat {
    if list == [] then 0
    else Count(list[..|list| - 1], c) + if list[|list| - 1].cpu == c then 1 else 0
  }

  /** How many contexts of the list are slot id of CPU c's pool. */
  function Holds(list: seq<Ctx>, c: Cpu, id: nat): nat {
    if list == [] then 0
    else Holds(list[..|list| - 1], c, id) + if IsSlot(list[|list| - 1], c, id) then 1 else 0
  }

  predicate IsSlot(x: Ctx, c: Cpu, id: nat) { x.cpu == c && x.id == id }

  /** The engines after restoring the snapshots of list[k..], newest first. */
  function Unwound(list: seq<Ctx>, e: PerCpu<Regs>, k: nat): PerCpu<Regs>
    requires k <= |list|
  {
    if |list| == k then e
    else
      var x := list[|list| - 1];
      Unwound(list[..|list| - 1], if x.saved.Some? then e.Set(x.cpu, x.saved.value) else e, k)
  }

  function Bump(count: PerCpu<int>, c: Cpu, delta: int): PerCpu<int> {
    count.Set(c, count.Get(c) + delta)
  }

  function Idle(x: Ctx): Ctx { x.(started := false, saved := None) }

  function Idled(list: seq<Ctx>): seq<Ctx> {
    seq(|list|, i requires 0 <= i < |list| => Idle(list[i]))
  }

  // ----- the operations of Cpu.c -----

  /** CpuEnterCritical. */
  function Enter(core: Core, x: Ctx): Core {
    core.(irq := Begin(core.irq), list := core.list + [x], count := Bump(core.count, x.cpu, 1))
  }

  function Head(core: Core): Ctx
    requires core.list != []
  {
    core.list[|core.list| - 1]
  }

  function SetHead(core: Core, x: Ctx): Core
    requires core.list != []
  {
    core.(list := core.list[..|core.list| - 1] + [x])
  }

  /** CpuLeaveCritical for the newest context; its first assertion is that there is one. */
  function Leave(core: Core): Core
    requires core.list != []
  {
    core.(irq := Begin(core.irq), list := core.list[..|core.list| - 1],
          count := Bump(core.count, Head(core).cpu, -1))
  }

  /**
   * The start of a run: snapshot and red zone when the CPU has another context on the list,
   * the initial state otherwise; then the arguments.
   */
  function Capture(core: Core, args: Args): Core
    requires core.list != []
  {
    var x := Head(core);
    var mine := core.engine.Get(x.cpu);
    var nested := core.count.Get(x.cpu) > 1;
    var base := if nested then RedZone(mine) else core.initial.Get(x.cpu);
    SetHead(core, x.(started := true, saved := if nested then Some(mine) else None))
    .(engine := core.engine.Set(x.cpu, PreRegs(x.cpu, base, args, core.magic)))
  }

  /** Anything the running context does to its engine. */
  function Write(core: Core, regs: Regs): Core
    requires core.list != []
  {
    core.(engine := core.engine.Set(Head(core).cpu, regs))
  }

  /** The end of a run: the snapshot, if any, goes back into the engine. */
  function Restore(core: Core): Core
    requires core.list != []
  {
    var x := Head(core);
    SetHead(core, Idle(x))
    .(engine := if x.saved.Some? then core.engine.Set(x.cpu, x.saved.value) else core.engine)
  }

  /** The counters after one decrement per context of list[k..]. */
  function Dropped(list: seq<Ctx>, count: PerCpu<int>, k: nat): PerCpu<int>
    requires k <= |list|
  {
    if |list| == k then count
    else Dropped(list[..|list| - 1], Bump(count, list[|list| - 1].cpu, -1), k)
  }

  /** The critical section of CpuCompressLeakedContexts that unlinks list[k..]. */
  function Compress(core: Core, k: nat): Core
    requires k <= |core.list|
  {
    core.(irq := Begin(core.irq), list := core.list[..k],
          engine := Unwound(core.list, core.engine, k),
          count := Dropped(core.list, core.count, k))
  }

  function TakeSlot(core: Core, c: Cpu): Core
    requires core.free.Get(c) != []
  {
    core.(free := core.free.Set(c, core.free.Get(c)[1..]))
  }

  function PutSlot(core: Core, c: Cpu, id: nat): Core {
    core.(free := core.free.Set(c, core.free.Get(c) + [id]))
  }

  /** The index of the newest context that runs an image, as CpuExitImage looks for it. */
  function InnermostImage(list: seq<Ctx>): (r: Option<nat>)
    ensures r.Some? ==> r.value < |list| && list[r.value].image.Some?
    ensures forall p :: (if r.Some? then r.value + 1 else 0) <= p < |list| ==> list[p].image.None?
  {
    if list == [] then None
    else if list[|list| - 1].image.Some? then Some(|list| - 1)
    else InnermostImage(list[..|list| - 1])
  }

  // ----- facts about lists -----

  lemma {:induction false} CountPrefix(list: seq<Ctx>, k: nat, c: Cpu)
    requires k <= |list|
    ensures Count(list[..k], c) <= Count(list, c)
    decreases |list|
  {
    if k == |list| {
      assert list[..k] == list;
    } else {
      assert list[..|list| - 1][..k] == list[..k];
      CountPrefix(list[..|list| - 1], k, c);
    }
  }

  lemma {:induction false} CountsAddUp(list: seq<Ctx>)
    ensures Count(list, X64) + Count(list, AArch64) == |list|
  {
    if list != [] {
      CountsAddUp(list[..|list| - 1]);
    }
  }

  /** A context of CPU c inside a prefix makes the prefix's count positive. */
  lemma {:induction false} CountPositive(list: seq<Ctx>, p: nat)
    requires p < |list|
    ensures Count(list[..p + 1], list[p].cpu) > 0
  {
    assert list[..p + 1][..p] == list[..p];
  }

  lemma {:induction false} DroppedCounts(list: seq<Ctx>, count: PerCpu<int>, k: nat, c: Cpu)
    requires k <= |list|
    ensures Dropped(list, count, k).Get(c) == count.Get(c) - Count(list, c) + Count(list[..k], c)
    decreases |list|
  {
    if k == |list| {
      assert list[..k] == list;
    } else {
      assert list[..|list| - 1][..k] == list[..k];
      DroppedCounts(list[..|list| - 1], Bump(count, list[|list| - 1].cpu, -1), k, c);
    }
  }

  lemma {:induction false} HoldsSplit(list: seq<Ctx>, k: nat, c: Cpu, id: nat)
    requires k <= |list|
    ensures Holds(list, c, id) == Holds(list[..k], c, id) + Holds(list[k..], c, id)
    decreases |list|
  {
    if k == |list| {
      assert list[..k] == list;
    } else {
      var n := |list| - 1;
      assert list[..n][..k] == list[..k];
      assert list[..n][k..] == list[k..][..n - k];
      HoldsSplit(list[..n], k, c, id);
    }
  }

  lemma {:induction false} HoldsIdled(list: seq<Ctx>, c: Cpu, id: nat)
    ensures Holds(Idled(list), c, id) == Holds(list, c, id)
  {
    if list != [] {
      assert Idled(list)[..|list| - 1] == Idled(list[..|list| - 1]);
      HoldsIdled(list[..|list| - 1], c, id);
    }
  }

  // ----- facts about unwinding -----

  /** Unwinding looks at each CPU's engine separately. */
  lemma {:induction false} UnwoundOneCpu(list: seq<Ctx>, e: PerCpu<Regs>, e': PerCpu<Regs>, k: nat, c: Cpu)
    requires k <= |list| && e.Get(c) == e'.Get(c)
    ensures Unwound(list, e, k).Get(c) == Unwound(list, e', k).Get(c)
    decreases |list|
  {
    if k < |list| {
      var x := list[|list| - 1];
      UnwoundOneCpu(list[..|list| - 1],
                    if x.saved.Some? then e.Set(x.cpu, x.saved.value) else e,
                    if x.saved.Some? then e'.Set(x.cpu, x.saved.value) else e', k, c);
    }
  }

  /** Unwinding in two stages is unwinding at once. */
  lemma {:induction false} UnwoundTwice(list: seq<Ctx>, e: PerCpu<Regs>, k: nat, j: nat)
    requires j <= k <= |list|
    ensures Unwound(list[..k], Unwound(list, e, k), j) == Unwound(list, e, j)
    decreases |list|
  {
    if k == |list| {
      assert list[..k] == list;
    } else {
      var x := list[|list| - 1];
      assert list[..|list| - 1][..k] == list[..k];
      UnwoundTwice(list[..|list| - 1], if x.saved.Some? then e.Set(x.cpu, x.saved.value) else e, k, j);
    }
  }

  /**
   * Nothing at or below age k can tell core' from core: same contexts, and the engines they
   * will find after unwinding are the same wherever a context needs them.
   */
  ghost predicate SameBelow(core: Core, core': Core, k: nat) {
    && k <= |core.list| && k <= |core'.list|
    && core'.list[..k] == core.list[..k]
    && forall j: nat, c | j <= k && Count(core.list[..j], c) > 0 ::
         Unwound(core'.list, core'.engine, j).Get(c) == Unwound(core.list, core.engine, j).Get(c)
  }

  /** The snapshot rule: a context holds a snapshot exactly when it runs over an older one of its CPU. */
  ghost predicate SavedRule(list: seq<Ctx>) {
    forall p {:trigger list[p]} :: 0 <= p < |list| ==>
      (list[p].saved.Some? <==> list[p].started && Count(list[..p], list[p].cpu) > 0)
  }

  ghost predicate ListOk(core: Core) {
    && SavedRule(core.list)
    && forall c :: core.count.Get(c) == Count(core.list, c)
  }

  lemma UnwoundPushed(list: seq<Ctx>, x: Ctx, e: PerCpu<Regs>, j: nat)
    requires j <= |list|
    ensures Unwound(list + [x], e, j) ==
            Unwound(list, if x.saved.Some? then e.Set(x.cpu, x.saved.value) else e, j)
  {
    assert (list + [x])[..|list|] == list;
  }

  lemma CountPushed(list: seq<Ctx>, x: Ctx, c: Cpu)
    ensures Count(list + [x], c) == Count(list, c) + if x.cpu == c then 1 else 0
  {
    assert (list + [x])[..|list|] == list;
  }

  lemma HoldsPushed(list: seq<Ctx>, x: Ctx, c: Cpu, id: nat)
    ensures Holds(list + [x], c, id) == Holds(list, c, id) + if IsSlot(x, c, id) then 1 else 0
  {
    assert (list + [x])[..|list|] == list;
  }

  lemma SavedRulePushed(list: seq<Ctx>, x: Ctx)
    requires SavedRule(list)
    requires x.saved.Some? <==> x.started && Count(list, x.cpu) > 0
    ensures SavedRule(list + [x])
  {
    var l := list + [x];
    forall p | 0 <= p < |l|
      ensures l[p].saved.Some? <==> l[p].started && Count(l[..p], l[p].cpu) > 0
    {
      if p < |list| {
        assert l[..p] == list[..p];
        assert l[p] == list[p];
      } else {
        assert l[..p] == list;
      }
    }
  }

  lemma SavedRulePrefix(list: seq<Ctx>, k: nat)
    requires SavedRule(list) && k <= |list|
    ensures SavedRule(list[..k])
  {
    forall p | 0 <= p < k
      ensures list[..k][p].saved.Some? <==> list[..k][p].started && Count(list[..k][..p], list[..k][p].cpu) > 0
    {
      assert list[..k][..p] == list[..p];
      assert list[..k][p] == list[p];
    }
  }

  // ----- each operation leaves what is older alone -----

  lemma EnterKeeps(core: Core, x: Ctx)
    requires ListOk(core) && !x.started && x.saved.None?
    ensures ListOk(Enter(core, x)) && SameBelow(core, Enter(core, x), |core.list|)
  {
    var core' := Enter(core, x);
    SavedRulePushed(core.list, x);
    forall c ensures core'.count.Get(c) == Count(core'.list, c) { CountPushed(core.list, x, c); }
    forall j: nat, c | j <= |core.list| && Count(core.list[..j], c) > 0
      ensures Unwound(core'.list, core'.engine, j).Get(c) == Unwound(core.list, core.engine, j).Get(c)
    {
      UnwoundPushed(core.list, x, core.engine, j);
    }
  }

  lemma LeaveKeeps(core: Core)
    requires ListOk(core) && core.list != [] && !Head(core).started
    ensures ListOk(Leave(core)) && SameBelow(core, Leave(core), |core.list| - 1)
    ensures Leave(core).count.Get(Head(core).cpu) >= 0
  {
    var n := |core.list| - 1;
    var core' := Leave(core);
    SavedRulePrefix(core.list, n);
    assert core.list[n].saved.None?;
    assert core'.list[..n] == core.list[..n];
    forall c ensures core'.count.Get(c) == Count(core'.list, c) {
      assert core.count.Get(c) == Count(core.list, c);
    }
  }

  /**
   * Replacing the newest context's snapshot and its CPU's engine is invisible to older contexts,
   * provided the snapshot now holds what unwinding would have produced before.
   */
  lemma HeadChange(core: Core, core': Core, x: Ctx, x': Ctx)
    requires core.list != [] && x == Head(core)
    requires core'.list == core.list[..|core.list| - 1] + [x'] && x'.cpu == x.cpu
    requires forall c :: c != x.cpu ==> core'.engine.Get(c) == core.engine.Get(c)
    requires Count(core.list[..|core.list| - 1], x.cpu) > 0 ==>
               (if x'.saved.Some? then x'.saved.value else core'.engine.Get(x.cpu)) ==
               (if x.saved.Some? then x.saved.value else core.engine.Get(x.cpu))
    ensures SameBelow(core, core', |core.list| - 1)
  {
    var n := |core.list| - 1;
    var below := core.list[..n];
    assert core.list == below + [x];
    forall j: nat, c | j <= n && Count(core.list[..j], c) > 0
      ensures Unwound(core'.list, core'.engine, j).Get(c) == Unwound(core.list, core.engine, j).Get(c)
    {
      UnwoundPushed(below, x, core.engine, j);
      UnwoundPushed(below, x', core'.engine, j);
      var e := if x.saved.Some? then core.engine.Set(x.cpu, x.saved.value) else core.engine;
      var e' := if x'.saved.Some? then core'.engine.Set(x.cpu, x'.saved.value) else core'.engine;
      if c == x.cpu {
        assert below[..j] == core.list[..j];
        CountPrefix(below, j, c);
        assert e.Get(c) == if x.saved.Some? then x.saved.value else core.engine.Get(c);
        assert e'.Get(c) == if x'.saved.Some? then x'.saved.value else core'.engine.Get(c);
      } else {
        assert e.Get(c) == core.engine.Get(c);
        assert e'.Get(c) == core'.engine.Get(c);
      }
      UnwoundOneCpu(below, e, e', j, c);
    }
  }

  /** The CPU's counter tells a nested start from a first one. */
  lemma NestedIff(core: Core)
    requires ListOk(core) && core.list != []
    ensures core.count.Get(Head(core).cpu) > 1 <==>
            Count(core.list[..|core.list| - 1], Head(core).cpu) > 0
  {
  }

  lemma HeadListOk(core: Core, core': Core, x': Ctx)
    requires ListOk(core) && core.list != [] && core'.count == core.count
    requires core'.list == core.list[..|core.list| - 1] + [x'] && x'.cpu == Head(core).cpu
    requires x'.saved.Some? <==> x'.started && Count(core.list[..|core.list| - 1], x'.cpu) > 0
    ensures ListOk(core')
  {
    var n := |core.list| - 1;
    SavedRulePrefix(core.list, n);
    SavedRulePushed(core.list[..n], x');
    forall c ensures core'.count.Get(c) == Count(core'.list, c) {
      CountPushed(core.list[..n], x', c);
      CountPushed(core.list[..n], Head(core), c);
      assert core.list == core.list[..n] + [Head(core)];
    }
  }

  lemma CaptureKeeps(core: Core, args: Args)
    requires ListOk(core) && core.list != [] && !Head(core).started
    ensures ListOk(Capture(core, args)) && SameBelow(core, Capture(core, args), |core.list| - 1)
  {
    NestedIff(core);
    var core' := Capture(core, args);
    assert core.list[|core.list| - 1].saved.None?;
    HeadListOk(core, core', Head(core'));
    HeadChange(core, core', Head(core), Head(core'));
  }

  lemma WriteKeeps(core: Core, regs: Regs)
    requires ListOk(core) && core.list != [] && Head(core).started
    ensures ListOk(Write(core, regs)) && SameBelow(core, Write(core, regs), |core.list| - 1)
  {
    var core' := Write(core, regs);
    assert core.list[|core.list| - 1].saved.Some? <==> Count(core.list[..|core.list| - 1], Head(core).cpu) > 0;
    assert core'.list == core.list[..|core.list| - 1] + [Head(core)];
    HeadChange(core, core', Head(core), Head(core));
  }

  lemma RestoreKeeps(core: Core)
    requires ListOk(core) && core.list != []
    ensures ListOk(Restore(core)) && SameBelow(core, Restore(core), |core.list| - 1)
  {
    var core' := Restore(core);
    HeadListOk(core, core', Idle(Head(core)));
    HeadChange(core, core', Head(core), Idle(Head(core)));
  }

  lemma CompressKeeps(core: Core, k: nat)
    requires ListOk(core) && k <= |core.list|
    ensures ListOk(Compress(core, k)) && SameBelow(core, Compress(core, k), k)
    ensures forall c :: Compress(core, k).count.Get(c) >= 0
  {
    var core' := Compress(core, k);
    SavedRulePrefix(core.list, k);
    forall c ensures core'.count.Get(c) == Count(core'.list, c) { DroppedCounts(core.list, core.count, k, c); }
    forall j: nat, c | j <= k && Count(core.list[..j], c) > 0
      ensures Unwound(core'.list, core'.engine, j).Get(c) == Unwound(core.list, core.engine, j).Get(c)
    {
      UnwoundTwice(core.list, core.engine, k, j);
    }
  }
}

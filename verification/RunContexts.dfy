/**
 * The run contexts as the driver keeps them: pooled records linked through PrevContext, two
 * CpuContext records, one interrupt control. Every method is proved to be the operation of
 * RunModel the run machine is built from.
 */
module RunContexts {
  import opened Words
  import opened Interrupts
  import opened Thunks
  import opened CpuContexts
  import Machine
  import Model = RunModel

  const EFI_UNSUPPORTED: Word := 0x8000_0000_0000_0003

  class CpuRunContext {
    const slot: nat
    const cpu: CpuContext
    var prevUcContext: Regs
    var haveSavedUcContext: bool
    var prevContext: CpuRunContext?
    var image: Option<nat>
    var args: Args
    var leakCookie: Word
    ghost var started: bool

    /** An object of the pool. */
    constructor (slot: nat, cpu: CpuContext)
      ensures this.slot == slot && this.cpu == cpu
    {
      this.slot, this.cpu := slot, cpu;
      prevUcContext, args := seq(NREGS, _ => 0), seq(MAX_ARGS, _ => 0);
      haveSavedUcContext, prevContext, image, leakCookie, started := false, null, None, 0, false;
    }

    /** CpuRunContextOnAlloc: everything but the snapshot buffer is zeroed. */
    method Scrub()
      modifies this
      ensures prevUcContext == old(prevUcContext)
      ensures !haveSavedUcContext && prevContext == null && image == None && leakCookie == 0 && !started
    {
      haveSavedUcContext, prevContext, image, leakCookie, started := false, null, None, 0, false;
      args := seq(MAX_ARGS, _ => 0);
    }

    ghost function View(): Model.Ctx
      reads this
    {
      Model.Ctx(slot, cpu.cpu, image, started, if haveSavedUcContext then Some(prevUcContext) else None)
    }
  }

  /** The freeing loop on the pools: newest context first, each to the tail of its pool's queue. */
  function Freed(free: PerCpu<seq<nat>>, chain: seq<Model.Ctx>): PerCpu<seq<nat>>
    decreases |chain|
  {
    if chain == [] then free
    else
      var x := chain[|chain| - 1];
      Freed(free.Set(x.cpu, free.Get(x.cpu) + [x.id]), chain[..|chain| - 1])
  }

  lemma FreedOne(free: PerCpu<seq<nat>>, chain: seq<Model.Ctx>, n: nat)
    requires 0 < n <= |chain|
    ensures var x := chain[n - 1];
            Freed(free, chain[..n]) == Freed(free.Set(x.cpu, free.Get(x.cpu) + [x.id]), chain[..n - 1])
  {
    assert chain[..n][..n - 1] == chain[..n - 1];
  }

  /** What the unlinking loop does, apart from the section around it. */
  function Unlinked(core: Model.Core, k: nat): Model.Core
    requires k <= |core.list|
  {
    core.(list := core.list[..k], engine := Model.Unwound(core.list, core.engine, k),
          count := Model.Dropped(core.list, core.count, k))
  }

  /** The whole of CpuCompressLeakedContexts as a function: unlink in a section, then free. */
  function CompressedAndFreed(core: Model.Core, k: nat): Model.Core
    requires k <= |core.list|
  {
    Model.Compress(core, k).(irq := End(Begin(core.irq)), free := Freed(core.free, Model.Idled(core.list[k..])))
  }

  class Emulator {
    const x64: CpuContext
    const aarch64: CpuContext
    const irq: InterruptControl
    const memory: GuestMemory
    const magic: Word
    /** The objects of the two context pools, by slot. */
    const records: PerCpu<seq<CpuRunContext>>
    var topContext: CpuRunContext?
    ghost var nodes: seq<CpuRunContext>
    ghost var list: seq<Model.Ctx>

    constructor (slots: nat, x64State: Regs, aarch64State: Regs, magic: Word, enabled: bool)
      ensures Valid() && Pooled() && nodes == [] && topContext == null
      ensures View() == Model.Core([], PerCpu(x64State, aarch64State), PerCpu(0, 0),
                                   PerCpu(seq(slots, i => i), seq(slots, i => i)), Irq(enabled, 0, enabled),
                                   PerCpu(x64State, aarch64State), magic)
    {
      var x64Cpu := new CpuContext(X64, x64State, slots);
      var aarch64Cpu := new CpuContext(AArch64, aarch64State, slots);
      var x64Records := MakeRecords(x64Cpu, slots);
      var aarch64Records := MakeRecords(aarch64Cpu, slots);
      x64, aarch64, records := x64Cpu, aarch64Cpu, PerCpu(x64Records, aarch64Records);
      irq := new InterruptControl(enabled);
      memory := new GuestMemory(map[]);
      this.magic := magic;
      topContext := null;
      nodes, list := [], [];
    }

    static method MakeRecords(cpu: CpuContext, slots: nat) returns (r: seq<CpuRunContext>)
      ensures |r| == slots && RecordsOf(r, cpu)
    {
      r := [];
      for slot := 0 to slots
        invariant |r| == slot && RecordsOf(r, cpu)
      {
        var record := new CpuRunContext(slot, cpu);
        r := r + [record];
      }
    }

    /** The objects of one pool, each at its own slot. */
    static ghost predicate RecordsOf(r: seq<CpuRunContext>, cpu: CpuContext) {
      forall i {:trigger r[i]} :: 0 <= i < |r| ==> r[i].slot == i && r[i].cpu == cpu
    }

    /** Free slots are slots of the pool. */
    ghost predicate Pooled()
      reads x64`freeSlots, aarch64`freeSlots
    {
      && x64.cpu == X64 && aarch64.cpu == AArch64
      && RecordsOf(records.x64, x64) && RecordsOf(records.aarch64, aarch64)
      && (forall id <- x64.freeSlots :: id < |records.x64|)
      && (forall id <- aarch64.freeSlots :: id < |records.aarch64|)
    }

    /** The context right below age i. */
    ghost function Before(i: nat): CpuRunContext?
      requires i <= |nodes|
      reads this`nodes
    {
      if i == 0 then null else nodes[i - 1]
    }

    /** PrevContext of the context of age i is the one right below it. */
    ghost predicate LinkedAt(i: nat)
      requires i < |nodes|
      reads this`nodes, nodes`prevContext
    {
      nodes[i].prevContext == Before(i)
    }

    ghost predicate IsCpu(c: CpuContext) {
      c == x64 || c == aarch64
    }

    /** nodes is the PrevContext chain, oldest first; the chain is acyclic and ends in null. */
    ghost predicate Chain()
      reads this`nodes, this`topContext, nodes`prevContext
    {
      && x64.cpu == X64 && aarch64.cpu == AArch64
      && (forall i :: 0 <= i < |nodes| ==> IsCpu(nodes[i].cpu))
      && (forall i, j :: 0 <= i < j < |nodes| ==> nodes[i] != nodes[j])
      && (forall i {:trigger LinkedAt(i)} :: 0 <= i < |nodes| ==> LinkedAt(i))
      && topContext == Before(|nodes|)
    }

    /** list is the abstract value of the k oldest contexts. */
    ghost predicate ListedUpTo(k: nat)
      reads this, nodes
    {
      && |list| == |nodes| && k <= |nodes|
      && forall i {:trigger nodes[i]} {:trigger list[i]} :: 0 <= i < k ==> list[i] == nodes[i].View()
    }

    ghost predicate Valid()
      reads this, nodes
    {
      Chain() && ListedUpTo(|nodes|)
    }

    /** Brings list up to date after the newest context changed. */
    ghost method Refresh(context: CpuRunContext)
      requires Chain() && nodes != [] && ListedUpTo(|nodes| - 1) && topContext == context
      modifies this`list
      ensures Valid() && list == old(list)[..|nodes| - 1] + [context.View()]
    {
      list := list[..|list| - 1] + [context.View()];
    }

    ghost function Engines(): PerCpu<Regs>
      reads x64, aarch64
    {
      PerCpu(x64.regs, aarch64.regs)
    }

    ghost function Counts(): PerCpu<int>
      reads x64, aarch64
    {
      PerCpu(x64.contexts, aarch64.contexts)
    }

    ghost function Pools(): PerCpu<seq<nat>>
      reads x64, aarch64
    {
      PerCpu(x64.freeSlots, aarch64.freeSlots)
    }

    ghost function View(): Model.Core
      reads this, x64, aarch64, irq
    {
      Model.Core(list, Engines(), Counts(), Pools(), irq.View(), PerCpu(x64.initialState, aarch64.initialState), magic)
    }

    /** A context linked right above the old top becomes part of the chain. */
    ghost method Append(context: CpuRunContext)
      requires x64.cpu == X64 && aarch64.cpu == AArch64 && ChainOf(nodes) && ListedUpTo(|nodes|)
      requires context !in nodes && IsCpu(context.cpu)
      requires context.prevContext == EndOf(nodes, |nodes|) && topContext == context
      modifies this`nodes, this`list
      ensures Valid() && nodes == old(nodes) + [context] && list == old(list) + [context.View()]
    {
      ghost var all := nodes;
      nodes, list := nodes + [context], list + [context.View()];
      forall i: nat | i < |nodes| ensures LinkedAt(i) {
        assert i < |all| ==> ChainLink(all, i);
      }
    }

    /** CpuEnterCritical. */
    method EnterCritical(context: CpuRunContext)
      requires Valid() && context !in nodes && IsCpu(context.cpu)
      modifies this`topContext, this`nodes, this`list, irq, context`prevContext, context.cpu`contexts
      ensures Valid() && nodes == old(nodes) + [context]
      ensures View() == Model.Enter(old(View()), context.View())
    {
      ChainIsChainOf();
      irq.CriticalBegin();
      LinkOnTop(context);
      Append(context);
    }

    method LinkOnTop(context: CpuRunContext)
      requires ChainOf(nodes) && ListedUpTo(|nodes|) && context !in nodes && topContext == EndOf(nodes, |nodes|)
      modifies this`topContext, context`prevContext, context.cpu`contexts
      ensures ChainOf(nodes) && ListedUpTo(|nodes|) && context.View() == old(context.View())
      ensures context.prevContext == EndOf(nodes, |nodes|) && topContext == context
      ensures context.cpu.contexts == old(context.cpu.contexts) + 1
    {
      context.prevContext := topContext;
      topContext := context;
      context.cpu.contexts := context.cpu.contexts + 1;
      forall i: nat | i < |nodes| ensures ChainLink(nodes, i) {
        assert old(ChainLink(nodes, i));
      }
    }

    /** CpuLeaveCritical; its first assertion is the precondition. */
    method LeaveCritical(context: CpuRunContext)
      requires Valid() && topContext == context
      modifies this`topContext, this`nodes, this`list, irq, context.cpu`contexts
      ensures Valid() && nodes == old(nodes)[..|old(nodes)| - 1]
      ensures View() == Model.Leave(old(View()))
    {
      ChainIsChainOf();
      assert list[|list| - 1] == context.View() && ChainLink(nodes, |nodes| - 1);
      irq.CriticalBegin();
      topContext := context.prevContext;
      context.cpu.contexts := context.cpu.contexts - 1;
      Adopt(nodes, list, |nodes| - 1);
    }

    /** The snapshot, or the initial state: CpuRunCtxOnPrivateStack before CpuRunCtxInternal. */
    method SaveOrReset(context: CpuRunContext)
      requires Valid() && topContext == context && !context.haveSavedUcContext
      modifies context`prevUcContext, context`haveSavedUcContext, context.cpu`regs
      ensures Chain() && ListedUpTo(|nodes| - 1)
      ensures context.haveSavedUcContext == (context.cpu.contexts > 1)
      ensures context.haveSavedUcContext ==> context.prevUcContext == old(context.cpu.regs)
      ensures context.cpu.regs ==
              if context.haveSavedUcContext then RedZone(old(context.cpu.regs)) else context.cpu.initialState
    {
      var cpu := context.cpu;
      if cpu.contexts > 1 {
        context.prevUcContext := cpu.regs;
        context.haveSavedUcContext := true;
        cpu.StackPushRedZone();
      } else {
        cpu.regs := cpu.initialState;
      }
    }

    /** EmuThunkPre, seen from the register file. */
    method EnterEmulation(context: CpuRunContext)
      requires IsCpu(context.cpu)
      modifies context.cpu`regs, memory
      ensures context.cpu.regs == PreRegs(context.cpu.cpu, old(context.cpu.regs), context.args, magic)
      ensures Entered(context, old(context.cpu.View(memory)))
    {
      ghost var g := context.cpu.View(memory);
      context.cpu.EmuThunkPre(memory, context.args, magic);
      if FrameBytes(context.cpu.cpu) <= g.Sp() {
        PreDelivers(context.cpu.cpu, g, context.args, magic);
      }
    }

    /** EmuThunkPost, seen from the register file. */
    method LeaveEmulation(context: CpuRunContext)
      requires IsCpu(context.cpu)
      modifies context.cpu`regs
      ensures context.cpu.regs == PostRegs(context.cpu.cpu, old(context.cpu.regs))
    {
      context.cpu.EmuThunkPost(memory);
    }

    /** The start of a run, up to and including EmuThunkPre. */
    method CaptureEngine(context: CpuRunContext)
      requires Valid() && topContext == context && !context.haveSavedUcContext
      modifies this`list, context`prevUcContext, context`haveSavedUcContext, context`started, context.cpu`regs, memory
      ensures Valid() && nodes == old(nodes)
      ensures View() == Model.Capture(old(View()), context.args)
      ensures Entered(context, Guest(old(Base(context)), old(memory.cells)))
    {
      assert list[|list| - 1] == context.View();
      TakeEngine(context);
      Refresh(context);
    }

    /** What a run starts from: below the red zone of what its engine holds if it is nested, or the initial state. */
    ghost function Base(context: CpuRunContext): Regs
      reads context, context.cpu
    {
      if context.cpu.contexts > 1 then RedZone(context.cpu.regs) else context.cpu.initialState
    }

    /**
     * The guest is entered from g: with room on the stack, it finds the context's arguments and its way
     * back to native code, and what lies at or above the stack pointer of g is untouched.
     */
    ghost predicate Entered(context: CpuRunContext, g: Guest)
      reads context, context.cpu, memory
    {
      && context.cpu.View(memory) == ThunkPre(context.cpu.cpu, g, context.args, magic)
      && (FrameBytes(context.cpu.cpu) <= g.Sp() ==>
            Delivered(context.cpu.cpu, g, context.cpu.View(memory), context.args, magic))
    }

    /** Snapshot or reset, then the thunk; nothing else on the list changes. */
    method TakeEngine(context: CpuRunContext)
      requires Valid() && topContext == context && !context.haveSavedUcContext
      modifies context`prevUcContext, context`haveSavedUcContext, context`started, context.cpu`regs, memory
      ensures Chain() && ListedUpTo(|nodes| - 1)
      ensures var nested := context.cpu.contexts > 1;
              && context.View() == old(context.View()).(started := true,
                                                        saved := if nested then Some(old(context.cpu.regs)) else None)
              && Engines() == old(Engines()).Set(context.cpu.cpu, PreRegs(context.cpu.cpu, old(Base(context)), context.args, magic))
      ensures Entered(context, Guest(old(Base(context)), old(memory.cells)))
    {
      SaveOrReset(context);
      EnterEmulation(context);
      context.started := true;
    }

    /** The snapshot, if any, goes back into the engine. */
    method ApplySnapshot(context: CpuRunContext)
      modifies context`haveSavedUcContext, context.cpu`regs
      ensures context.cpu.regs == if old(context.haveSavedUcContext) then context.prevUcContext else old(context.cpu.regs)
      ensures !context.haveSavedUcContext
    {
      if context.haveSavedUcContext {
        context.cpu.regs := context.prevUcContext;
        context.haveSavedUcContext := !context.haveSavedUcContext;
      }
    }

    /** Applies the snapshot of the newest context; nothing else on the list changes. */
    method LeaveEngine(context: CpuRunContext)
      requires Valid() && topContext == context
      modifies context`haveSavedUcContext, context`started, context.cpu`regs
      ensures Chain() && ListedUpTo(|nodes| - 1) && context.View() == Model.Idle(old(context.View()))
      ensures var x := old(context.View());
              Engines() == if x.saved.Some? then old(Engines()).Set(x.cpu, x.saved.value) else old(Engines())
    {
      ApplySnapshot(context);
      context.started := false;
    }

    method RestoreEngine(context: CpuRunContext)
      requires Valid() && topContext == context
      modifies this`list, context`haveSavedUcContext, context`started, context.cpu`regs
      ensures Valid() && nodes == old(nodes)
      ensures View() == Model.Restore(old(View()))
    {
      assert list[|list| - 1] == context.View();
      LeaveEngine(context);
      Refresh(context);
    }

    /**
     * The end of a run: EmuThunkPost and the return value unless emulation failed, then the restore.
     * The value is read before the caller's registers come back.
     */
    method FinishRun(context: CpuRunContext, failed: bool) returns (ret: Word)
      requires Valid() && topContext == context
      modifies this`list, context`haveSavedUcContext, context`started, context.cpu`regs
      ensures Valid() && nodes == old(nodes)
      ensures View() == Model.Restore(
        if failed then old(View())
        else Model.Write(old(View()), PostRegs(context.cpu.cpu, old(context.cpu.regs))))
      ensures ret == if failed then EFI_UNSUPPORTED else old(context.cpu.regs)[ReturnReg(context.cpu.cpu)]
    {
      assert list[|list| - 1] == context.View();
      ret := EFI_UNSUPPORTED;
      if !failed {
        LeaveEmulation(context);
        ret := context.cpu.regs[ReturnReg(context.cpu.cpu)];
      }
      RestoreEngine(context);
    }

    /** Each counter is the number of its CPU's contexts on the chain. */
    ghost predicate CountsMatch()
      reads this, x64, aarch64
    {
      forall c :: Counts().Get(c) == Model.Count(list, c)
    }

    /** One turn of the unlinking loop: restore, decrement, and the loop's counter assertion. */
    method UnwindOne(context: CpuRunContext)
      requires x64.cpu == X64 && aarch64.cpu == AArch64 && IsCpu(context.cpu) && context.cpu.contexts > 0
      modifies context`haveSavedUcContext, context`started, context.cpu`regs, context.cpu`contexts
      ensures context.View() == Model.Idle(old(context.View()))
      ensures Engines() == if old(context.haveSavedUcContext)
                           then old(Engines()).Set(context.cpu.cpu, context.prevUcContext) else old(Engines())
      ensures Counts() == Model.Bump(old(Counts()), context.cpu.cpu, -1) && context.cpu.contexts >= 0
    {
      ApplySnapshot(context);
      context.started := false;
      context.cpu.contexts := context.cpu.contexts - 1;
    }

    /** Distinct contexts all[..n], oldest first, hang together through PrevContext down to null. */
    ghost predicate ChainOf(all: seq<CpuRunContext>)
      reads all`prevContext
    {
      && Members(all)
      && (forall i {:trigger ChainLink(all, i)} :: 0 <= i < |all| ==> ChainLink(all, i))
    }

    /** Distinct contexts of the two CPUs. */
    ghost predicate Members(all: seq<CpuRunContext>) {
      && (forall i :: 0 <= i < |all| ==> IsCpu(all[i].cpu))
      && (forall i, j :: 0 <= i < j < |all| ==> all[i] != all[j])
    }

    ghost predicate ChainLink(all: seq<CpuRunContext>, i: nat)
      requires i < |all|
      reads all`prevContext
    {
      all[i].prevContext == EndOf(all, i)
    }

    ghost function EndOf(all: seq<CpuRunContext>, k: nat): CpuRunContext?
      requires k <= |all|
    {
      if k == 0 then null else all[k - 1]
    }

    /** One turn on values. */
    lemma UnwindStep(was: seq<Model.Ctx>, j: nat, k: nat, e: PerCpu<Regs>, counts: PerCpu<int>)
      requires k < j <= |was|
      ensures var x := was[j - 1];
              && Model.Unwound(was[..j], e, k) ==
                 Model.Unwound(was[..j - 1], if x.saved.Some? then e.Set(x.cpu, x.saved.value) else e, k)
              && Model.Dropped(was[..j], counts, k) == Model.Dropped(was[..j - 1], Model.Bump(counts, x.cpu, -1), k)
      ensures forall c :: Model.Count(was[..j], c) == Model.Count(was[..j - 1], c) + if was[j - 1].cpu == c then 1 else 0
    {
      assert was[..j][..j - 1] == was[..j - 1];
    }

    /** The j oldest of all still look as before, the rest is unlinked. */
    ghost predicate Unwinding(all: seq<CpuRunContext>, was: seq<Model.Ctx>, j: nat)
      reads all
    {
      j <= |all| == |was| && forall i :: 0 <= i < |all| ==> all[i].View() == if i < j then was[i] else Model.Idle(was[i])
    }

    /** Each counter is the number of its CPU's contexts in the list. */
    ghost predicate CountsAre(list: seq<Model.Ctx>)
      reads x64, aarch64
    {
      forall c :: Counts().Get(c) == Model.Count(list, c)
    }

    /** The contexts above the j oldest are unwound; going on down to age k will lead to these engines and counters. */
    ghost predicate UnwoundTo(all: seq<CpuRunContext>, was: seq<Model.Ctx>, j: nat, k: nat, engines: PerCpu<Regs>, counts: PerCpu<int>)
      reads all, x64, aarch64
    {
      && k <= j <= |all| == |was|
      && Unwinding(all, was, j) && CountsAre(was[..j])
      && Model.Unwound(was[..j], Engines(), k) == engines && Model.Dropped(was[..j], Counts(), k) == counts
    }

    method UnwindTurn(context: CpuRunContext, ghost all: seq<CpuRunContext>, ghost was: seq<Model.Ctx>, ghost j: nat, ghost k: nat,
                      ghost engines: PerCpu<Regs>, ghost counts: PerCpu<int>)
      returns (next: CpuRunContext?)
      requires x64.cpu == X64 && aarch64.cpu == AArch64 && Members(all)
      requires UnwoundTo(all, was, j, k, engines, counts) && k < j && context == all[j - 1] && ChainLink(all, j - 1)
      modifies x64`regs, x64`contexts, aarch64`regs, aarch64`contexts, all`haveSavedUcContext, all`started
      ensures next == EndOf(all, j - 1) && UnwoundTo(all, was, j - 1, k, engines, counts)
    {
      next := context.prevContext;
      ghost var rest := was[..j - 1];
      UnwindStep(was, j, k, Engines(), Counts());
      assert Counts().Get(context.cpu.cpu) == Model.Count(was[..j], context.cpu.cpu);
      ghost var before := Counts();
      UnwindOne(context);
      forall c ensures Counts().Get(c) == Model.Count(rest, c) {
        assert before.Get(c) == Model.Count(was[..j], c);
      }
    }

    lemma UnwindingStarts(all: seq<CpuRunContext>, was: seq<Model.Ctx>, k: nat)
      requires k <= |all| && Unwinding(all, was, |all|) && CountsAre(was)
      ensures UnwoundTo(all, was, |all|, k, Model.Unwound(was, Engines(), k), Model.Dropped(was, Counts(), k))
    {
      assert was[..|all|] == was;
    }

    lemma SameEnd(all: seq<CpuRunContext>, j: nat, k: nat)
      requires Members(all) && j <= |all| && k <= |all| && EndOf(all, j) == EndOf(all, k)
      ensures j == k
    {
    }

    lemma UnwindingEnds(all: seq<CpuRunContext>, was: seq<Model.Ctx>, k: nat, engines: PerCpu<Regs>, counts: PerCpu<int>)
      requires UnwoundTo(all, was, k, k, engines, counts)
      ensures Engines() == engines && Counts() == counts && CountsAre(was[..k]) && Unwinding(all, was, k)
    {
    }

    /** The unlinking loop of CpuCompressLeakedContexts, from the newest of all down to age k. */
    method Unwind(from: CpuRunContext?, to: CpuRunContext?, ghost all: seq<CpuRunContext>, ghost was: seq<Model.Ctx>, ghost k: nat)
      requires x64.cpu == X64 && aarch64.cpu == AArch64 && ChainOf(all)
      requires k <= |all| && from == EndOf(all, |all|) && to == EndOf(all, k)
      requires Unwinding(all, was, |all|) && CountsAre(was)
      modifies x64`regs, x64`contexts, aarch64`regs, aarch64`contexts, all`haveSavedUcContext, all`started
      ensures Engines() == Model.Unwound(was, old(Engines()), k)
      ensures Counts() == Model.Dropped(was, old(Counts()), k)
      ensures CountsAre(was[..k]) && Unwinding(all, was, k)
    {
      var context := from;
      ghost var j: nat := |all|;
      ghost var engines, counts := Model.Unwound(was, Engines(), k), Model.Dropped(was, Counts(), k);
      UnwindingStarts(all, was, k);
      while context != to
        invariant k <= j <= |all| && context == EndOf(all, j)
        invariant UnwoundTo(all, was, j, k, engines, counts)
        decreases j
      {
        assert old(ChainLink(all, j - 1));
        context := UnwindTurn(context, all, was, j, k, engines, counts);
        j := j - 1;
      }
      SameEnd(all, j, k);
      UnwindingEnds(all, was, k, engines, counts);
    }

    lemma ChainIsChainOf()
      requires Chain()
      ensures ChainOf(nodes) && topContext == EndOf(nodes, |nodes|)
    {
      forall i: nat | i < |nodes| ensures ChainLink(nodes, i) {
        assert LinkedAt(i);
      }
    }

    /** A prefix of a chain is the chain of its newest context. */
    lemma PrefixIsChain(all: seq<CpuRunContext>, k: nat)
      requires ChainOf(all) && k <= |all| && nodes == all[..k] && topContext == EndOf(all, k)
      requires x64.cpu == X64 && aarch64.cpu == AArch64
      ensures Chain()
    {
      forall i: nat | i < |nodes| ensures LinkedAt(i) {
        assert ChainLink(all, i);
      }
    }

    /** The k oldest contexts are what is left on the list. */
    ghost method Adopt(all: seq<CpuRunContext>, was: seq<Model.Ctx>, k: nat)
      requires ChainOf(all) && k <= |all| == |was| && topContext == EndOf(all, k)
      requires x64.cpu == X64 && aarch64.cpu == AArch64
      requires forall i :: 0 <= i < k ==> all[i].View() == was[i]
      modifies this`nodes, this`list
      ensures Valid() && nodes == all[..k] && list == was[..k]
    {
      nodes, list := all[..k], was[..k];
      PrefixIsChain(all, k);
    }

    /** mTopContext becomes to, and the chain from the old top down to it is unwound. */
    method UnlinkDownTo(to: CpuRunContext?, ghost k: nat)
      requires Valid() && CountsMatch() && k <= |nodes| && to == EndOf(nodes, k)
      modifies this`topContext, this`nodes, this`list
      modifies x64`regs, x64`contexts, aarch64`regs, aarch64`contexts, nodes`haveSavedUcContext, nodes`started
      ensures Valid() && CountsMatch() && topContext == to && nodes == old(nodes)[..k]
      ensures View() == Unlinked(old(View()), k) && Unwinding(old(nodes), old(list), k)
      ensures irq.View() == old(irq.View())
    {
      ghost var all, was := nodes, list;
      ChainIsChainOf();
      var from := topContext;
      topContext := to;
      Unwind(from, to, all, was, k);
      Adopt(all, was, k);
    }

    method BeginSection()
      requires Valid() && CountsMatch()
      modifies irq
      ensures Valid() && CountsMatch() && View() == old(View()).(irq := Begin(old(irq.View())))
    {
      irq.CriticalBegin();
    }

    method EndSection()
      requires Valid() && CountsMatch() && irq.depth > 0
      modifies irq
      ensures Valid() && CountsMatch() && View() == old(View()).(irq := End(old(irq.View())))
    {
      irq.CriticalEnd();
    }

    /**
     * The critical section of CpuCompressLeakedContexts: mTopContext is reset first, then the
     * chain from the old top is walked, restoring snapshots and decrementing the counter of each
     * context's own CPU. The counter assertion of the loop is proved.
     */
    method UnlinkLeaked(current: CpuRunContext, onImageExit: bool, ghost age: nat, ghost k: nat)
      returns (from: CpuRunContext?, to: CpuRunContext?)
      requires Valid() && CountsMatch() && age < |nodes| && nodes[age] == current
      requires k == if onImageExit then age else age + 1
      modifies this`topContext, this`nodes, this`list, irq
      modifies x64`regs, x64`contexts, aarch64`regs, aarch64`contexts
      modifies nodes`haveSavedUcContext, nodes`started
      ensures Valid() && CountsMatch() && from == old(topContext) && to == topContext == EndOf(old(nodes), k)
      ensures nodes == old(nodes)[..k] && Unwinding(old(nodes), old(list), k)
      ensures View() == Model.Compress(old(View()), k).(irq := End(Begin(old(irq.View()))))
    {
      BeginSection();
      from := topContext;
      assert LinkedAt(age);
      to := if onImageExit then current.prevContext else current;
      ghost var inside := View();
      UnlinkDownTo(to, k);
      assert View() == Unlinked(inside, k);
      EndSection();
    }

    /** CpuFreeContext and ObjectFree; their assertions are the preconditions. */
    method FreeContext(context: CpuRunContext)
      requires IsCpu(context.cpu) && !context.haveSavedUcContext && context.slot !in context.cpu.freeSlots
      requires x64.cpu == X64 && aarch64.cpu == AArch64
      modifies context.cpu`freeSlots
      ensures Pools() == old(Pools()).Set(context.cpu.cpu, old(context.cpu.freeSlots) + [context.slot])
    {
      context.cpu.freeSlots := context.cpu.freeSlots + [context.slot];
    }

    /** The n oldest of a chain of unlinked contexts still wait to be freed. */
    ghost predicate Waiting(chain: seq<CpuRunContext>, n: nat)
      reads chain, x64`freeSlots, aarch64`freeSlots
    {
      && n <= |chain|
      && (forall i {:trigger chain[i]} :: 0 <= i < n ==>
            IsCpu(chain[i].cpu) && !chain[i].haveSavedUcContext && chain[i].slot !in chain[i].cpu.freeSlots)
      && (forall i, j :: 0 <= i < j < n ==> chain[i].slot != chain[j].slot || chain[i].cpu != chain[j].cpu)
    }

    /** The chain hangs together through PrevContext and ends right above stop. */
    ghost predicate ChainedAt(chain: seq<CpuRunContext>, stop: CpuRunContext?, i: nat)
      requires i < |chain|
      reads chain`prevContext
    {
      chain[i] != stop && chain[i].prevContext == if i == 0 then stop else chain[i - 1]
    }

    method FreeNewest(context: CpuRunContext, ghost chain: seq<CpuRunContext>, ghost n: nat)
      requires x64.cpu == X64 && aarch64.cpu == AArch64
      requires n > 0 && Waiting(chain, n) && context == chain[n - 1]
      modifies x64`freeSlots, aarch64`freeSlots
      ensures Waiting(chain, n - 1)
      ensures Pools() == old(Pools()).Set(context.cpu.cpu, old(context.cpu.freeSlots) + [context.slot])
    {
      FreeContext(context);
    }

    /** One turn of the freeing loop. */
    method FreeTurn(context: CpuRunContext, ghost to: CpuRunContext?, ghost chain: seq<CpuRunContext>,
                    ghost views: seq<Model.Ctx>, ghost n: nat) returns (next: CpuRunContext?)
      requires x64.cpu == X64 && aarch64.cpu == AArch64
      requires 0 < n <= |chain| == |views| && Waiting(chain, n) && context == chain[n - 1]
      requires ChainedAt(chain, to, n - 1) && (n > 1 ==> ChainedAt(chain, to, n - 2)) && views[n - 1] == context.View()
      modifies x64`freeSlots, aarch64`freeSlots
      ensures Waiting(chain, n - 1) && next == (if n == 1 then to else chain[n - 2]) && (n > 1 ==> next != to)
      ensures Freed(Pools(), views[..n - 1]) == Freed(old(Pools()), views[..n])
    {
      FreedOne(Pools(), views, n);
      next := context.prevContext;
      FreeNewest(context, chain, n);
    }

    /** The freeing loop of CpuCompressLeakedContexts, outside the section. */
    method FreeLeaked(from: CpuRunContext?, to: CpuRunContext?, ghost chain: seq<CpuRunContext>, ghost views: seq<Model.Ctx>)
      requires x64.cpu == X64 && aarch64.cpu == AArch64
      requires Waiting(chain, |chain|) && from == if chain == [] then to else chain[|chain| - 1]
      requires forall i {:trigger ChainedAt(chain, to, i)} :: 0 <= i < |chain| ==> ChainedAt(chain, to, i)
      requires |views| == |chain| && forall i :: 0 <= i < |chain| ==> views[i] == chain[i].View()
      modifies x64`freeSlots, aarch64`freeSlots
      ensures Pools() == Freed(old(Pools()), views)
    {
      var fromContext := from;
      ghost var n: nat := |chain|;
      ghost var rest := views;
      ghost var pools := Freed(Pools(), views);
      assert n > 0 ==> ChainedAt(chain, to, n - 1);
      while fromContext != to
        invariant Waiting(chain, n) && rest == views[..n]
        invariant if n == 0 then fromContext == to else fromContext == chain[n - 1] && fromContext != to
        invariant Freed(Pools(), rest) == pools
        decreases n
      {
        assert old(ChainedAt(chain, to, n - 1)) && (n > 1 ==> old(ChainedAt(chain, to, n - 2)));
        fromContext := FreeTurn(fromContext, to, chain, views, n);
        n := n - 1;
        rest := views[..n];
      }
    }

    /** Contexts that CpuFreeContext may free later: distinct slots that are not in their pool's queue. */
    ghost predicate Freeable(chain: seq<CpuRunContext>)
      reads x64`freeSlots, aarch64`freeSlots
    {
      && (forall i {:trigger chain[i]} :: 0 <= i < |chain| ==> IsCpu(chain[i].cpu) && chain[i].slot !in chain[i].cpu.freeSlots)
      && (forall i, j :: 0 <= i < j < |chain| ==> chain[i].slot != chain[j].slot || chain[i].cpu != chain[j].cpu)
    }

    lemma UnlinkedChain(all: seq<CpuRunContext>, k: nat)
      requires ChainOf(all) && k <= |all|
      ensures forall i {:trigger ChainedAt(all[k..], EndOf(all, k), i)} :: 0 <= i < |all| - k ==> ChainedAt(all[k..], EndOf(all, k), i)
    {
      forall i: nat | i < |all| - k ensures ChainedAt(all[k..], EndOf(all, k), i) {
        assert ChainLink(all, k + i);
      }
    }

    lemma UnlinkedWaiting(all: seq<CpuRunContext>, was: seq<Model.Ctx>, k: nat)
      requires k <= |all| == |was| && Freeable(all)
      requires forall i {:trigger all[i]} :: k <= i < |all| ==> all[i].View() == Model.Idle(was[i])
      ensures Waiting(all[k..], |all| - k)
      ensures forall i :: 0 <= i < |all| - k ==> Model.Idled(was[k..])[i] == all[k..][i].View()
    {
    }

    /** Frees what was unlinked from all above age k. */
    method FreeUnlinked(from: CpuRunContext?, to: CpuRunContext?, ghost all: seq<CpuRunContext>, ghost was: seq<Model.Ctx>, ghost k: nat)
      requires Valid() && CountsMatch() && ChainOf(all) && Freeable(all)
      requires k <= |all| == |was| && from == EndOf(all, |all|) && to == EndOf(all, k)
      requires Unwinding(all, was, k)
      modifies x64`freeSlots, aarch64`freeSlots
      ensures Valid() && CountsMatch() && nodes == old(nodes)
      ensures View() == old(View()).(free := Freed(old(Pools()), Model.Idled(was[k..])))
    {
      UnlinkedChain(all, k);
      UnlinkedWaiting(all, was, k);
      FreeLeaked(from, to, all[k..], Model.Idled(was[k..]));
    }

    /**
     * CpuCompressLeakedContexts: afterwards the list ends with the current context, or with the one
     * below it on image exit; the engines and counters are unwound; every unlinked context is back
     * in its own CPU's pool.
     */
    method CompressLeakedContexts(current: CpuRunContext, onImageExit: bool, ghost age: nat)
      requires Valid() && CountsMatch() && age < |nodes| && nodes[age] == current && Freeable(nodes)
      modifies this`topContext, this`nodes, this`list, irq
      modifies x64`regs, x64`contexts, x64`freeSlots, aarch64`regs, aarch64`contexts, aarch64`freeSlots
      modifies nodes`haveSavedUcContext, nodes`started
      ensures Valid() && CountsMatch() && nodes == old(nodes)[..if onImageExit then age else age + 1]
      ensures View() == CompressedAndFreed(old(View()), if onImageExit then age else age + 1)
    {
      ghost var k := if onImageExit then age else age + 1;
      ghost var all, before := nodes, View();
      ChainIsChainOf();
      var from, to := UnlinkLeaked(current, onImageExit, age, k);
      ghost var unlinked := View();
      FreeUnlinked(from, to, all, before.list, k);
      assert View() == unlinked.(free := Freed(unlinked.free, Model.Idled(before.list[k..])));
    }

    /** NativeThunkCheckLeakedContexts. */
    method CheckLeakedContexts(context: CpuRunContext, ghost age: nat)
      requires Valid() && CountsMatch() && age < |nodes| && nodes[age] == context && Freeable(nodes)
      modifies this`topContext, this`nodes, this`list, irq
      modifies x64`regs, x64`contexts, x64`freeSlots, aarch64`regs, aarch64`contexts, aarch64`freeSlots
      modifies nodes`haveSavedUcContext, nodes`started
      ensures Valid() && CountsMatch() && topContext == context && nodes == old(nodes)[..age + 1]
      ensures View() == if old(topContext) == context then old(View()) else CompressedAndFreed(old(View()), age + 1)
    {
      if topContext != context {
        CompressLeakedContexts(context, false, age);
      }
    }

    /** The search loop of CpuExitImage. */
    method InnermostImageContext() returns (context: CpuRunContext?)
      requires Valid()
      ensures var p := Model.InnermostImage(list);
              if p.Some? then context == nodes[p.value] else context == null
    {
      context := topContext;
      ghost var j: nat := |nodes|;
      while context != null && context.image.None?
        invariant j <= |nodes| && context == Before(j)
        invariant forall i :: j <= i < |nodes| ==> list[i].image.None?
        decreases j
      {
        assert LinkedAt(j - 1) && list[j - 1] == nodes[j - 1].View();
        context := context.prevContext;
        j := j - 1;
      }
      assert j > 0 ==> list[j - 1] == nodes[j - 1].View();
    }

    /**
     * CpuExitImage up to its long jump: an unknown handle and a handle that is not the innermost
     * image's are refused, and only the interrupt state can tell that the check ran. asserted
     * tells whether the assertion between search and comparison held, if it was reached.
     */
    method ExitImage(record: Option<nat>) returns (accepted: bool, asserted: bool)
      requires Valid() && irq.depth == 0
      modifies irq
      ensures accepted <==> record.Some? && Machine.ExitAccepted(old(View()), record.value)
      ensures asserted <==> record.None? || exists x <- list :: x.image.Some?
      ensures View() == if record.None? then old(View()) else old(View()).(irq := End(Begin(old(irq.View()))))
    {
      if record.None? {
        return false, true;
      }
      irq.CriticalBegin();
      var context := InnermostImageContext();
      asserted := context != null;
      assert asserted ==> list[Model.InnermostImage(list).value] in list;
      accepted := context != null && context.image == record;
      irq.CriticalEnd();
    }

    /**
     * CpuAllocContext and its caller's first stores: the object at the head of the CPU's free queue,
     * scrubbed, whatever its last use left in it, or nothing. It is no listed object, as those are
     * not free.
     */
    method AllocContext(cpu: CpuContext, image: Option<nat>, args: Args) returns (context: CpuRunContext?)
      requires Valid() && IsCpu(cpu) && Pooled() && Freeable(nodes)
      modifies cpu`freeSlots, records.Get(cpu.cpu)
      ensures Valid() && Pooled() && nodes == old(nodes)
      ensures context == null <==> old(cpu.freeSlots) == []
      ensures context == null ==> View() == old(View())
      ensures context != null ==>
                && old(cpu.freeSlots)[0] < |records.Get(cpu.cpu)|
                && context == records.Get(cpu.cpu)[old(cpu.freeSlots)[0]]
                && context !in nodes && context.args == args
                && context.View() == Model.Ctx(old(cpu.freeSlots)[0], cpu.cpu, image, false, None)
                && View() == Model.TakeSlot(old(View()), cpu.cpu)
      ensures forall r <- records.Get(cpu.cpu) :: r == context || unchanged(r)
    {
      if cpu.freeSlots == [] {
        return null;
      }
      context := TakeRecord(cpu);
      Prepare(context, image, args);
    }

    /** ObjectAlloc on the CPU's pool: the object of the slot that has been free longest. */
    method TakeRecord(cpu: CpuContext) returns (context: CpuRunContext)
      requires IsCpu(cpu) && Pooled() && Freeable(nodes) && cpu.freeSlots != []
      modifies cpu`freeSlots
      ensures Pooled() && cpu.freeSlots == old(cpu.freeSlots)[1..] && context !in nodes
      ensures old(cpu.freeSlots)[0] < |records.Get(cpu.cpu)|
      ensures context == records.Get(cpu.cpu)[old(cpu.freeSlots)[0]] && context.slot == old(cpu.freeSlots)[0] && context.cpu == cpu
    {
      assert cpu.freeSlots[0] in cpu.freeSlots;
      context := records.Get(cpu.cpu)[cpu.freeSlots[0]];
      cpu.freeSlots := cpu.freeSlots[1..];
      assert forall id <- cpu.freeSlots :: id in old(cpu.freeSlots);
    }

    /** Scrubs an object that is not listed, and stores what CpuRunFunc and CpuRunImage put in it. */
    method Prepare(context: CpuRunContext, image: Option<nat>, args: Args)
      requires Valid() && context !in nodes
      modifies context
      ensures Valid() && context.args == args
      ensures context.View() == Model.Ctx(context.slot, context.cpu.cpu, image, false, None)
    {
      context.Scrub();
      context.image, context.args := image, args;
      forall i: nat | i < |nodes| ensures LinkedAt(i) {
        assert old(LinkedAt(i));
      }
    }
  }
}

/**
 * The simple machine the driver simulates: every context owns a register file of its own.
 * There is no sharing, no snapshot and no restoring in it.
 */
module PrivateRegisters {
  import opened Words
  import opened Interrupts
  import opened Thunks
  import opened RunModel
  import opened Machine
  import opened Invariant
  import opened Preservation
  import opened Theorems

  /** A listed context and, between its start and its end, its registers. */
  datatype Owner = Owner(id: nat, cpu: Cpu, image: Option<nat>, regs: Option<Regs>)

  datatype Move =
    | Stay
    | Push(x: Owner)
    | Start(args: Args, leftover: Regs)
    | Compute(regs: Regs)
    | Resume(value: Word)
    | Stop
    | DropTo(k: nat)

  predicate Occupied(owners: seq<Owner>, c: Cpu) { exists x <- owners :: x.cpu == c }

  /** The newest owner of CPU c that has registers. */
  function Newest(owners: seq<Owner>, c: Cpu): (r: Option<nat>)
    ensures r.Some? ==> r.value < |owners| && owners[r.value].cpu == c && owners[r.value].regs.Some?
    ensures forall p {:trigger owners[p]} :: (if r.Some? then r.value + 1 else 0) <= p < |owners| ==>
              !(owners[p].cpu == c && owners[p].regs.Some?)
  {
    if owners == [] then None
    else
      var n := |owners| - 1;
      if owners[n].cpu == c && owners[n].regs.Some? then Some(n) else Newest(owners[..n], c)
  }

  /**
   * What a new context starts from. Alone on its CPU: the initial state. Over running contexts of
   * its CPU: the registers of the newest, below the red zone. Over contexts that are listed but
   * have no registers: whatever is left over in the engine.
   */
  function StartBase(others: seq<Owner>, c: Cpu, leftover: Regs, initial: PerCpu<Regs>): Regs {
    if !Occupied(others, c) then initial.Get(c)
    else
      var p := Newest(others, c);
      RedZone(if p.Some? then others[p.value].regs.value else leftover)
  }

  function Apply(owners: seq<Owner>, m: Move, initial: PerCpu<Regs>, magic: Word): seq<Owner> {
    if m.Stay? then owners
    else if m.Push? then owners + [m.x]
    else if m.DropTo? then (if m.k <= |owners| then owners[..m.k] else owners)
    else if owners == [] then owners
    else
      var n := |owners| - 1;
      var x := owners[n];
      owners[..n] + [x.(regs :=
        match m
        case Start(args, leftover) => Some(PreRegs(x.cpu, StartBase(owners[..n], x.cpu, leftover, initial), args, magic))
        case Compute(regs) => Some(regs)
        case Resume(value) => (if x.regs.Some? then Some(NativeReturnRegs(x.cpu, x.regs.value, value)) else None)
        case _ => None)]
  }

  // ----- what the driver's state means in the simple machine -----

  function OwnerAt(core: Core, p: nat): Owner
    requires p < |core.list|
  {
    var x := core.list[p];
    Owner(x.id, x.cpu, x.image,
          if x.started then Some(Unwound(core.list, core.engine, p + 1).Get(x.cpu)) else None)
  }

  function Owners(core: Core): seq<Owner> {
    seq(|core.list|, p requires 0 <= p < |core.list| => OwnerAt(core, p))
  }

  /** The move of the simple machine that an action of the driver amounts to. */
  function Meaning(s: State, a: Action): Move
    requires s.control != []
  {
    var t := Top(s);
    match a
    case EnterCritical => if t.Run? then Push(Owner(t.id, t.cpu, t.image, None)) else Stay
    case CaptureEngine(args) => if t.Run? then Start(args, s.core.engine.Get(t.cpu)) else Stay
    case Slice(regs) => Compute(regs)
    case ResumeThunk(value) => Resume(value)
    case Finish => Stop
    case LeaveCritical => DropTo(if s.core.list == [] then 0 else |s.core.list| - 1)
    case ReturnFromNative =>
      var f := s.control[if |s.control| >= 2 then |s.control| - 2 else 0];
      if f.Run? && !OwnsHead(s.core, f) then DropTo(Find(s.core.list, f.cpu, f.id) + 1) else Stay
    case ExitImage(record) =>
      if ExitAccepted(s.core, record) && ExitTargetLive(s, record)
      then var f := s.control[s.buffers[record]]; DropTo(Find(s.core.list, f.cpu, f.id))
      else Stay
    case _ => Stay
  }

  // ----- the simulation -----

  lemma OwnersBelow(core: Core, core': Core, k: nat)
    requires SameBelow(core, core', k)
    ensures Owners(core')[..k] == Owners(core)[..k]
  {
    forall p | 0 <= p < k ensures Owners(core')[p] == Owners(core)[p] {
      assert core'.list[..k][p] == core.list[..k][p];
      CountPositive(core.list, p);
    }
  }

  /** The newest context's registers are what its engine holds. */
  lemma OwnerOnTop(core: Core)
    requires core.list != []
    ensures var x := Head(core);
            OwnerAt(core, |core.list| - 1) ==
            Owner(x.id, x.cpu, x.image, if x.started then Some(core.engine.Get(x.cpu)) else None)
  {
  }

  /** Unless somebody above took a snapshot, an engine still holds what it held. */
  lemma {:induction false} UnwoundUnsaved(list: seq<Ctx>, e: PerCpu<Regs>, k: nat, c: Cpu)
    requires k <= |list|
    requires forall p {:trigger list[p]} :: k <= p < |list| && list[p].cpu == c ==> list[p].saved.None?
    ensures Unwound(list, e, k).Get(c) == e.Get(c)
    decreases |list|
  {
    if k < |list| {
      var x := list[|list| - 1];
      UnwoundUnsaved(list[..|list| - 1], if x.saved.Some? then e.Set(x.cpu, x.saved.value) else e, k, c);
    }
  }

  /** An engine holds the registers of the newest running context of its CPU. */
  lemma EngineIsNewest(core: Core, c: Cpu)
    requires SavedRule(core.list)
    ensures var p := Newest(Owners(core), c);
            p.Some? ==> Owners(core)[p.value].regs == Some(core.engine.Get(c))
  {
    var p := Newest(Owners(core), c);
    if p.Some? {
      forall q {:trigger core.list[q]} | p.value + 1 <= q < |core.list| && core.list[q].cpu == c
        ensures core.list[q].saved.None?
      {
        assert Owners(core)[q] == OwnerAt(core, q);
      }
      UnwoundUnsaved(core.list, core.engine, p.value + 1, c);
    }
  }

  lemma {:induction false} OccupiedIff(list: seq<Ctx>, c: Cpu)
    ensures Count(list, c) > 0 <==> exists x <- list :: x.cpu == c
  {
    if list != [] {
      OccupiedIff(list[..|list| - 1], c);
      assert list == list[..|list| - 1] + [list[|list| - 1]];
    }
  }

  lemma OwnersOccupied(core: Core, k: nat, c: Cpu)
    requires k <= |core.list|
    ensures Occupied(Owners(core)[..k], c) <==> Count(core.list[..k], c) > 0
  {
    OccupiedIff(core.list[..k], c);
    if x :| x in core.list[..k] && x.cpu == c {
      var p :| 0 <= p < k && core.list[p] == x;
      assert Owners(core)[..k][p].cpu == c;
    }
    if x :| x in Owners(core)[..k] && x.cpu == c {
      var p :| 0 <= p < k && Owners(core)[p] == x;
      assert core.list[..k][p].cpu == c;
    }
  }

  lemma OwnersOf(core: Core, below: seq<Owner>, x: Owner)
    requires core.list != [] && below == Owners(core)[..|core.list| - 1] && x == OwnerAt(core, |core.list| - 1)
    ensures Owners(core) == below + [x]
  {
  }

  lemma NewestBelow(owners: seq<Owner>, x: Owner, c: Cpu)
    requires x.regs.None?
    ensures Newest(owners + [x], c) == Newest(owners, c)
  {
    assert (owners + [x])[..|owners|] == owners;
  }

  /** Starting a run: the base the code computes is the one the simple machine prescribes. */
  lemma StartAgrees(core: Core)
    requires ListOk(core) && core.list != [] && !Head(core).started
    ensures var x := Head(core);
            ComputedBase(core) == StartBase(Owners(core)[..|core.list| - 1], x.cpu, core.engine.Get(x.cpu), core.initial)
  {
    var n := |core.list| - 1;
    var c := Head(core).cpu;
    NestedIff(core);
    OwnersOccupied(core, n, c);
    OwnersOf(core, Owners(core)[..n], OwnerAt(core, n));
    NewestBelow(Owners(core)[..n], OwnerAt(core, n), c);
    EngineIsNewest(core, c);
  }

  /** The base the code computes for the newest context. */
  function ComputedBase(core: Core): Regs
    requires core.list != []
  {
    var c := Head(core).cpu;
    if core.count.Get(c) > 1 then RedZone(core.engine.Get(c)) else core.initial.Get(c)
  }

  /** The base it should have: below the red zone of the newest running owner, else the initial state. */
  function IntendedBase(others: seq<Owner>, c: Cpu, initial: PerCpu<Regs>): Regs {
    var p := Newest(others, c);
    if p.Some? then RedZone(others[p.value].regs.value) else initial.Get(c)
  }

  /**
   * A run starts where it should exactly when its CPU has no other context, or one of the others
   * is running, or the leftovers in the engine happen to look like the initial state. What fails is
   * a start over contexts that are listed but not running: they have not captured the engine yet,
   * or have given it back already.
   */
  lemma StartsWhereIntendedIff(core: Core)
    requires ListOk(core) && core.list != [] && !Head(core).started
    ensures var others, c := core.list[..|core.list| - 1], Head(core).cpu;
            ComputedBase(core) == IntendedBase(Owners(core)[..|core.list| - 1], c, core.initial) <==>
            (forall x <- others :: x.cpu != c) || (exists x <- others :: x.cpu == c && x.started)
            || RedZone(core.engine.Get(c)) == core.initial.Get(c)
  {
    var n, c := |core.list| - 1, Head(core).cpu;
    var owners := Owners(core)[..n];
    StartAgrees(core);
    OwnersOccupied(core, n, c);
    OccupiedIff(core.list[..n], c);
    if x :| x in core.list[..n] && x.cpu == c && x.started {
      var p :| 0 <= p < n && core.list[p] == x;
      assert owners[p].cpu == c && owners[p].regs.Some?;
    }
    var p := Newest(owners, c);
    if p.Some? {
      assert core.list[..n][p.value].started;
      SomebodyThere(owners, p.value);
    }
  }

  lemma SomebodyThere(owners: seq<Owner>, p: nat)
    requires p < |owners|
    ensures Occupied(owners, owners[p].cpu)
  {
    assert owners[p] in owners;
  }

  /** Operations that only touch the newest context and its engine. */
  lemma HeadOnly(core: Core, core': Core)
    requires core.list != [] && |core'.list| == |core.list| && SameBelow(core, core', |core.list| - 1)
    ensures Owners(core') == Owners(core)[..|core.list| - 1] + [OwnerAt(core', |core.list| - 1)]
  {
    OwnersBelow(core, core', |core.list| - 1);
    OwnersOf(core', Owners(core)[..|core.list| - 1], OwnerAt(core', |core.list| - 1));
  }

  /** What a capture leaves in the engine, in terms of the simple machine. */
  lemma CapturedOwner(core: Core, args: Args)
    requires ListOk(core) && core.list != [] && !Head(core).started
    ensures var n, x, core' := |core.list| - 1, Head(core), Capture(core, args);
            |core'.list| == n + 1 &&
            OwnerAt(core', n) == Owner(x.id, x.cpu, x.image, Some(PreRegs(x.cpu,
              StartBase(Owners(core)[..n], x.cpu, core.engine.Get(x.cpu), core.initial), args, core.magic)))
  {
    StartAgrees(core);
    OwnerOnTop(Capture(core, args));
  }

  lemma CaptureSimulates(core: Core, args: Args)
    requires ListOk(core) && core.list != [] && !Head(core).started
    ensures Owners(Capture(core, args)) ==
            Apply(Owners(core), Start(args, core.engine.Get(Head(core).cpu)), core.initial, core.magic)
  {
    CaptureKeeps(core, args);
    CapturedOwner(core, args);
    HeadOnly(core, Capture(core, args));
  }

  lemma WriteSimulates(core: Core, regs: Regs)
    requires ListOk(core) && core.list != [] && Head(core).started
    ensures Owners(Write(core, regs)) == Apply(Owners(core), Compute(regs), core.initial, core.magic)
  {
    WriteKeeps(core, regs);
    HeadOnly(core, Write(core, regs));
    OwnerOnTop(Write(core, regs));
  }

  lemma RestoreSimulates(core: Core)
    requires ListOk(core) && core.list != []
    ensures Owners(Restore(core)) == Apply(Owners(core), Stop, core.initial, core.magic)
  {
    RestoreKeeps(core);
    HeadOnly(core, Restore(core));
    OwnerOnTop(Restore(core));
  }

  lemma EnterSimulates(core: Core, x: Ctx)
    requires ListOk(core) && !x.started && x.saved.None?
    ensures Owners(Enter(core, x)) == Owners(core) + [Owner(x.id, x.cpu, x.image, None)]
  {
    EnterKeeps(core, x);
    OwnersBelow(core, Enter(core, x), |core.list|);
    assert Owners(core)[..|core.list|] == Owners(core);
    OwnersOf(Enter(core, x), Owners(core), OwnerAt(Enter(core, x), |core.list|));
  }

  lemma LeaveSimulates(core: Core)
    requires ListOk(core) && core.list != [] && !Head(core).started
    ensures Owners(Leave(core)) == Owners(core)[..|core.list| - 1]
  {
    LeaveKeeps(core);
    OwnersBelow(core, Leave(core), |core.list| - 1);
    assert Owners(Leave(core))[..|core.list| - 1] == Owners(Leave(core));
  }

  lemma CompressSimulates(core: Core, k: nat)
    requires ListOk(core) && k <= |core.list|
    ensures Owners(Compress(core, k)) == Owners(core)[..k]
  {
    CompressKeeps(core, k);
    OwnersBelow(core, Compress(core, k), k);
    assert Owners(Compress(core, k))[..k] == Owners(Compress(core, k));
  }

  lemma SameOwners(core: Core, core': Core)
    requires core'.list == core.list && core'.engine == core.engine
    ensures Owners(core') == Owners(core)
  {
  }

  /** The step is the move of the simple machine that its action means. */
  ghost predicate Simulates(s: State, a: Action, s': State)
    requires s.control != []
  {
    Owners(s'.core) == Apply(Owners(s.core), Meaning(s, a), s.core.initial, s.core.magic)
  }

  /** Actions the simple machine does not see. */
  predicate Invisible(a: Action) {
    !(a.EnterCritical? || a.CaptureEngine? || a.Slice? || a.ResumeThunk? || a.Finish? || a.LeaveCritical?
      || a.ReturnFromNative? || a.ExitImage?)
  }

  lemma InvisibleStays(s: State, a: Action, s': State)
    requires Moves(s, a, s') && Invisible(a)
    ensures Simulates(s, a, s')
  {
    InvisibleKeeps(s, a, s');
    SameOwners(s.core, s'.core);
  }

  lemma InvisibleKeeps(s: State, a: Action, s': State)
    requires Moves(s, a, s') && Invisible(a)
    ensures s'.core.list == s.core.list && s'.core.engine == s.core.engine
  {
  }

  lemma FinishSimulates(s: State, s': State, slots: nat)
    requires Inv(s, slots) && Moves(s, Finish, s')
    ensures Simulates(s, Finish, s')
  {
    var t := Top(s);
    TopOwnsHead(s, slots);
    if t.phase.reason == FailedEmu {
      RestoreSimulates(s.core);
    } else {
      var regs := PostRegs(t.cpu, s.core.engine.Get(t.cpu));
      WriteKeeps(s.core, regs);
      WriteSimulates(s.core, regs);
      RestoreSimulates(Write(s.core, regs));
    }
  }

  lemma ResumeSimulates(s: State, value: Word, s': State, slots: nat)
    requires Inv(s, slots) && Moves(s, ResumeThunk(value), s')
    ensures Simulates(s, ResumeThunk(value), s')
  {
    var t := Top(s);
    TopOwnsHead(s, slots);
    OwnerOnTop(s.core);
    WriteSimulates(s.core, NativeReturnRegs(t.cpu, s.core.engine.Get(t.cpu), value));
  }

  lemma ReturnSimulates(s: State, s': State)
    requires Moves(s, ReturnFromNative, s') && ListOk(s.core)
    ensures Simulates(s, ReturnFromNative, s')
  {
    var f := s.control[|s.control| - 2];
    if !OwnsHead(s.core, f) {
      CompressSimulates(s.core, Find(s.core.list, f.cpu, f.id) + 1);
    }
  }

  lemma ExitSimulates(s: State, record: nat, s': State)
    requires Moves(s, ExitImage(record), s') && ListOk(s.core)
    ensures Simulates(s, ExitImage(record), s')
  {
    var core := s.core.(irq := End(Begin(s.core.irq)));
    SameOwners(s.core, core);
    if ExitAccepted(s.core, record) && ExitTargetLive(s, record) {
      var f := s.control[s.buffers[record]];
      CompressSimulates(core, Find(s.core.list, f.cpu, f.id));
    }
  }

  lemma ListSimulates(s: State, a: Action, s': State, slots: nat)
    requires Inv(s, slots) && Moves(s, a, s') && (a.ReturnFromNative? || a.ExitImage?)
    ensures Simulates(s, a, s')
  {
    if a.ReturnFromNative? {
      ReturnSimulates(s, s');
    } else {
      ExitSimulates(s, a.record, s');
    }
  }

  lemma HeadSimulates(s: State, a: Action, s': State, slots: nat)
    requires Inv(s, slots) && Moves(s, a, s')
    requires a.EnterCritical? || a.CaptureEngine? || a.Slice? || a.LeaveCritical?
    ensures Simulates(s, a, s')
  {
    var t := Top(s);
    if a.EnterCritical? {
      EnterSimulates(s.core, Ctx(t.id, t.cpu, t.image, false, None));
    } else {
      TopOwnsHead(s, slots);
      match a
      case CaptureEngine(args) => CaptureSimulates(s.core, args);
      case Slice(regs) => WriteSimulates(s.core, regs);
      case LeaveCritical => LeaveSimulates(s.core);
    }
  }

  /**
   * Shared engines refine private registers: every step of every run is, on the simple machine,
   * the one move its meaning prescribes. Only the newest owner's registers ever change.
   */
  lemma SharedEnginesRefinePrivateRegisters(s: State, a: Action, s': State, slots: nat)
    requires Reachable(s, slots) && Moves(s, a, s')
    ensures Simulates(s, a, s')
  {
    ReachableInv(s, slots);
    if Invisible(a) {
      InvisibleStays(s, a, s');
    } else if a.Finish? {
      FinishSimulates(s, s', slots);
    } else if a.ResumeThunk? {
      ResumeSimulates(s, a.value, s', slots);
    } else if a.ReturnFromNative? || a.ExitImage? {
      ListSimulates(s, a, s', slots);
    } else {
      HeadSimulates(s, a, s', slots);
    }
  }

  // ----- what follows on the simple machine -----

  lemma ApplyKeepsOlder(owners: seq<Owner>, m: Move, initial: PerCpu<Regs>, magic: Word, n: nat)
    requires n < |owners| && n < |Apply(owners, m, initial, magic)|
    ensures Apply(owners, m, initial, magic)[..n] == owners[..n]
  {
  }

  /**
   * While something newer stays listed, a suspended context keeps its registers, whatever runs,
   * leaks, jumps and repairs happen meanwhile on either CPU.
   */
  lemma {:induction false} SuspendedRegistersFrozen(
    states: seq<State>, actions: seq<Action>, i: nat, j: nat, n: nat, slots: nat)
    requires IsRun(states, actions, slots) && i <= j <= |actions|
    requires forall k :: i <= k <= j ==> n < |states[k].core.list|
    ensures Owners(states[j].core)[..n] == Owners(states[i].core)[..n]
    decreases j
  {
    if i < j {
      SuspendedRegistersFrozen(states, actions, i, j - 1, n, slots);
      RunReaches(states, actions, j - 1, slots);
      var s := states[j - 1];
      SharedEnginesRefinePrivateRegisters(s, actions[j - 1], states[j], slots);
      ApplyKeepsOlder(Owners(s.core), Meaning(s, actions[j - 1]), s.core.initial, s.core.magic, n);
    }
  }

  lemma SnapshotAbove(core: Core, p: nat, q: nat)
    requires SavedRule(core.list) && p < q < |core.list|
    requires core.list[p].started && core.list[q].started && core.list[p].cpu == core.list[q].cpu
    requires forall r {:trigger core.list[r]} :: p < r < q && core.list[r].cpu == core.list[p].cpu ==> core.list[r].saved.None?
    ensures core.list[q].saved == Owners(core)[p].regs
  {
    var list, c := core.list, core.list[p].cpu;
    assert Count(list[..q], c) > 0 by {
      CountPositive(list, p);
      assert list[..q][..p + 1] == list[..p + 1];
      CountPrefix(list[..q], p + 1, c);
    }
    var e := Unwound(list, core.engine, q + 1);
    UnwoundTwice(list, core.engine, q + 1, p + 1);
    assert list[..q + 1] == list[..q] + [list[q]];
    UnwoundPushed(list[..q], list[q], e, p + 1);
    UnwoundUnsaved(list[..q], e.Set(c, list[q].saved.value), p + 1, c);
  }

  /**
   * A suspended context's registers are exactly the snapshot held by the next newer running
   * context of its CPU.
   */
  lemma SuspendedRegistersAreSnapshot(s: State, p: nat, q: nat, slots: nat)
    requires Reachable(s, slots) && p < q < |s.core.list|
    requires s.core.list[p].started && s.core.list[q].started && s.core.list[p].cpu == s.core.list[q].cpu
    requires forall r {:trigger s.core.list[r]} :: p < r < q && s.core.list[r].cpu == s.core.list[p].cpu ==> !s.core.list[r].started
    ensures s.core.list[q].saved == Owners(s.core)[p].regs
  {
    ReachableList(s, slots);
    SnapshotAbove(s.core, p, q);
  }
}

/**
 * Nested runs share one guest stack per CPU. If every activation of emulated code keeps the ABI
 * relative to the stack pointer it was entered with, a nested run never writes at or above the
 * red zone of any suspended context, however deep.
 */
module StackIsolation {
  import opened Words
  import opened Thunks
  import opened RunModel
  import opened Machine
  import opened Invariant
  import Preservation
  import opened Theorems
  import Transparency
  import opened PrivateRegisters

  function Sp(r: Regs): Word { r[REG_SP] }

  /** What a callee may pop beyond its entry stack pointer: on x64 its own return address. */
  function Slack(c: Cpu): nat { if c == X64 then 8 else 0 }

  // ----- entry stack pointers -----

  /**
   * The stack pointer each owner was entered with, oldest first: recorded when its thunk is done,
   * 0 before. sp is the stack pointer after the move.
   */
  function Track(entries: seq<Word>, m: Move, sp: Word): seq<Word> {
    if m.Push? then entries + [0]
    else if m.DropTo? then (if m.k <= |entries| then entries[..m.k] else entries)
    else if m.Start? && entries != [] then entries[..|entries| - 1] + [sp]
    else entries
  }

  /**
   * A running owner is in its own frame, and was entered exactly one red zone and one thunk frame
   * below the stack pointer of the newest older running owner of its CPU.
   */
  ghost predicate EntryOk(owners: seq<Owner>, entries: seq<Word>, q: nat)
    requires q < |owners| == |entries|
  {
    owners[q].regs.Some? ==>
      var c := owners[q].cpu;
      var p := Newest(owners[..q], c);
      && Sp(owners[q].regs.value) <= entries[q] + Slack(c)
      && (p.Some? ==> entries[q] == Sp(owners[p.value].regs.value) - SYSV_X64_ABI_REDZONE - FrameBytes(c))
  }

  ghost predicate EntriesOk(owners: seq<Owner>, entries: seq<Word>) {
    && |owners| == |entries|
    && forall q {:trigger owners[q]} :: 0 <= q < |owners| ==> EntryOk(owners, entries, q)
  }

  /**
   * What a move may assume: room on the stack for a nested frame, emulated code that stays in the
   * frame it was entered with, and native calls whose return address is in that frame.
   */
  predicate Conforms(owners: seq<Owner>, entries: seq<Word>, m: Move)
    requires |owners| == |entries|
  {
    owners != [] ==>
    var n := |owners| - 1;
    var c := owners[n].cpu;
    match m
    case Start(_, _) =>
      var p := Newest(owners[..n], c);
      p.Some? ==> SYSV_X64_ABI_REDZONE + FrameBytes(c) <= Sp(owners[p.value].regs.value)
    case Compute(regs) => Sp(regs) <= entries[n] + Slack(c)
    case Resume(_) => c == X64 && owners[n].regs.Some? ==> Sp(owners[n].regs.value) <= entries[n]
    case _ => true
  }

  /** New contexts are listed before they have registers, and only started ones compute. */
  predicate Sensible(owners: seq<Owner>, m: Move) {
    && (m.Push? ==> m.x.regs.None?)
    && (m.Compute? && owners != [] ==> owners[|owners| - 1].regs.Some?)
  }

  lemma StartsBelow(c: Cpu, base: Regs, args: Args, magic: Word)
    requires SYSV_X64_ABI_REDZONE + FrameBytes(c) <= Sp(base)
    ensures Sp(PreRegs(c, RedZone(base), args, magic)) == Sp(base) - SYSV_X64_ABI_REDZONE - FrameBytes(c)
  {
  }

  /** Entries below the newest owner do not depend on it. */
  lemma EntriesBelow(owners: seq<Owner>, entries: seq<Word>, owners': seq<Owner>, entries': seq<Word>, n: nat)
    requires EntriesOk(owners, entries) && |owners'| == |entries'| && n <= |owners| && n <= |owners'|
    requires owners'[..n] == owners[..n] && entries'[..n] == entries[..n]
    ensures forall q: nat :: q < n ==> EntryOk(owners', entries', q)
  {
    forall q: nat | q < n ensures EntryOk(owners', entries', q) {
      assert EntryOk(owners, entries, q);
      assert owners'[..q] == owners'[..n][..q] == owners[..n][..q] == owners[..q];
      assert owners'[q] == owners'[..n][q] == owners[..n][q];
      assert entries'[q] == entries'[..n][q] == entries[..n][q];
      var p := Newest(owners[..q], owners[q].cpu);
      assert p.Some? ==> owners[p.value] == owners[..q][p.value] == owners'[..q][p.value] == owners'[p.value];
    }
  }

  /** The owner that starts, computes or resumes is left in its own frame. */
  lemma NewestEntryOk(owners: seq<Owner>, entries: seq<Word>, m: Move, initial: PerCpu<Regs>, magic: Word, sp: Word)
    requires EntriesOk(owners, entries) && Conforms(owners, entries, m) && Sensible(owners, m) && owners != []
    requires m.Start? || m.Compute? || m.Resume? || m.Stop?
    requires var x := PrivateRegisters.Apply(owners, m, initial, magic)[|owners| - 1];
             m.Start? && x.regs.Some? ==> sp == Sp(x.regs.value)
    ensures EntryOk(PrivateRegisters.Apply(owners, m, initial, magic), Track(entries, m, sp), |owners| - 1)
  {
    var n, c := |owners| - 1, owners[|owners| - 1].cpu;
    var owners' := PrivateRegisters.Apply(owners, m, initial, magic);
    assert owners'[..n] == owners[..n];
    assert EntryOk(owners, entries, n);
    var p := Newest(owners[..n], c);
    if p.Some? {
      assert owners'[p.value] == owners[p.value];
      if m.Start? {
        SomebodyThere(owners[..n], p.value);
        StartsBelow(c, owners[p.value].regs.value, m.args, magic);
      }
    }
  }

  /** Conforming moves keep every owner in its own frame. */
  lemma MoveKeepsEntries(owners: seq<Owner>, entries: seq<Word>, m: Move, initial: PerCpu<Regs>, magic: Word, sp: Word)
    requires EntriesOk(owners, entries) && Conforms(owners, entries, m) && Sensible(owners, m)
    requires var owners' := PrivateRegisters.Apply(owners, m, initial, magic);
             m.Start? && owners' != [] && owners'[|owners'| - 1].regs.Some? ==> sp == Sp(owners'[|owners'| - 1].regs.value)
    ensures EntriesOk(PrivateRegisters.Apply(owners, m, initial, magic), Track(entries, m, sp))
  {
    var owners', entries' := PrivateRegisters.Apply(owners, m, initial, magic), Track(entries, m, sp);
    if m.Push? {
      EntriesBelow(owners, entries, owners', entries', |owners|);
    } else if m.DropTo? {
      EntriesBelow(owners, entries, owners', entries', |owners'|);
    } else if !m.Stay? && owners != [] {
      var n := |owners| - 1;
      NewestEntryOk(owners, entries, m, initial, magic, sp);
      EntriesBelow(owners, entries, owners', entries', n);
    }
  }

  /** Running contexts of one CPU are stacked downward, a red zone apart. */
  ghost predicate Stacked(owners: seq<Owner>) {
    forall p, q :: 0 <= p < q < |owners| && owners[p].cpu == owners[q].cpu
                   && owners[p].regs.Some? && owners[q].regs.Some? ==>
                     Sp(owners[q].regs.value) + SYSV_X64_ABI_REDZONE <= Sp(owners[p].regs.value)
  }

  lemma {:induction false} BelowOlder(owners: seq<Owner>, entries: seq<Word>, p: nat, q: nat)
    requires EntriesOk(owners, entries) && p < q < |owners| && owners[p].cpu == owners[q].cpu
    requires owners[p].regs.Some? && owners[q].regs.Some?
    ensures Sp(owners[q].regs.value) + SYSV_X64_ABI_REDZONE <= Sp(owners[p].regs.value)
    decreases q
  {
    assert EntryOk(owners, entries, q);
    assert owners[..q][p] == owners[p];
    var m := Newest(owners[..q], owners[q].cpu).value;
    assert owners[..q][m] == owners[m];
    if p < m {
      BelowOlder(owners, entries, p, m);
    }
  }

  lemma EntriesStack(owners: seq<Owner>, entries: seq<Word>)
    requires EntriesOk(owners, entries)
    ensures Stacked(owners)
  {
    forall p, q | 0 <= p < q < |owners| && owners[p].cpu == owners[q].cpu
                  && owners[p].regs.Some? && owners[q].regs.Some?
      ensures Sp(owners[q].regs.value) + SYSV_X64_ABI_REDZONE <= Sp(owners[p].regs.value)
    {
      BelowOlder(owners, entries, p, q);
    }
  }

  // ----- native calls -----

  /** The activation is at a native call of x64 code: a return address is on its stack. */
  predicate AtCall(f: Frame) {
    f.Run? && f.cpu == X64 && (f.phase == Stopped(CallToNative) || f.phase.InNative? || Mending(f))
  }

  /** That return address is in the activation's own frame, so popping it stays in the frame. */
  ghost predicate CallerOk(core: Core, entries: seq<Word>, f: Frame) {
    var n := |f.at.list|;
    && n < |core.list| && n < |entries|
    && (Owners(core)[n].regs.Some? ==> Sp(Owners(core)[n].regs.value) <= entries[n])
  }

  ghost predicate CallersOk(s: State, entries: seq<Word>) {
    forall i {:trigger s.control[i]} :: 0 <= i < |s.control| && AtCall(s.control[i]) ==>
      CallerOk(s.core, entries, s.control[i])
  }

  lemma ReturnBringsNoCaller(s: State, s': State, i: nat)
    requires Chained(s.control) && Moves(s, ReturnFromNative, s') && i < |s'.control| && AtCall(s'.control[i])
    ensures i < |s.control| && AtCall(s.control[i])
  {
    assert LinkAt(s.control, |s.control| - 1);
    if i < |s'.control| - 1 {
      assert s'.control[i] == s.control[i];
    }
  }

  lemma UnwindingBringsNoCaller(s: State, a: Action, s': State, i: nat)
    requires Moves(s, a, s') && Unwinds(a) && !a.ReturnFromNative? && i < |s'.control| && AtCall(s'.control[i])
    ensures i < |s.control| && AtCall(s.control[i])
  {
    if i < |s'.control| - 1 {
      assert s'.control[i] == s.control[i];
    }
  }

  lemma AdvancingBringsCaller(s: State, a: Action, s': State, i: nat)
    requires Moves(s, a, s') && !Unwinds(a) && i < |s'.control| && AtCall(s'.control[i])
    ensures i < |s.control| && s.control[i].Run?
    ensures AtCall(s.control[i]) || (a == EndSlice(CallToNative) && i == |s.control| - 1)
  {
    if i < |s.control| - 1 {
      assert s'.control[i] == s.control[i];
    }
  }

  /** Only the end of a slice brings an activation to a native call. */
  lemma CallerWasThere(s: State, a: Action, s': State, i: nat)
    requires Chained(s.control) && Moves(s, a, s') && i < |s'.control| && AtCall(s'.control[i])
    ensures i < |s.control| && s.control[i].Run?
    ensures AtCall(s.control[i]) || (a == EndSlice(CallToNative) && i == |s.control| - 1)
  {
    if a.ReturnFromNative? {
      ReturnBringsNoCaller(s, s', i);
    } else if Unwinds(a) {
      UnwindingBringsNoCaller(s, a, s', i);
    } else {
      AdvancingBringsCaller(s, a, s', i);
    }
  }

  /** Actions that change the newest owner's registers. */
  predicate Touches(a: Action) { a.CaptureEngine? || a.Slice? || a.ResumeThunk? || a.Finish? }

  lemma TouchedIsNotCaller(s: State, a: Action, s': State)
    requires Moves(s, a, s') && Touches(a)
    ensures Top(s).Run? && OnList(Top(s).phase)
    ensures |s'.control| == |s.control| && !AtCall(s'.control[|s.control| - 1])
  {
  }

  lemma OwnerUntouched(
    owners: seq<Owner>, entries: seq<Word>, m: Move, initial: PerCpu<Regs>, magic: Word, sp: Word, n: nat)
    requires |owners| == |entries| && n < |owners| && n < |PrivateRegisters.Apply(owners, m, initial, magic)|
    requires n < |owners| - 1 || m.Stay? || m.Push? || m.DropTo?
    ensures PrivateRegisters.Apply(owners, m, initial, magic)[n] == owners[n]
    ensures n < |Track(entries, m, sp)| && Track(entries, m, sp)[n] == entries[n]
  {
  }

  lemma UntouchedMeaning(s: State, a: Action)
    requires s.control != [] && !Touches(a)
    ensures Meaning(s, a).Stay? || Meaning(s, a).Push? || Meaning(s, a).DropTo?
  {
  }

  /** Callers are suspended while anything newer has the engine. */
  lemma CallerIsOlder(s: State, a: Action, s': State, i: nat)
    requires Chained(s.control) && Moves(s, a, s') && Touches(a) && i < |s.control| && i < |s'.control|
    requires |s.core.list| == |Top(s).at.list| + 1
    requires s.control[i].Run? && OnList(s.control[i].phase) && AtCall(s'.control[i])
    ensures |s.control[i].at.list| < |s.core.list| - 1
  {
    TouchedIsNotCaller(s, a, s');
    HeightsGrow(s.control, i, |s.control| - 1);
  }

  /** An activation's own context is on the list as long as the activation is. */
  lemma OwnIsListed(s: State, i: nat, slots: nat)
    requires Inv(s, slots) && i < |s.control| && s.control[i].Run? && OnList(s.control[i].phase)
    ensures |s.control[i].at.list| < |s.core.list|
  {
    assert FrameOk(s.core, s.control[i]);
  }

  // ----- conforming runs -----

  function EngineSp(core: Core): Word {
    if core.list == [] then 0 else Sp(core.engine.Get(Head(core).cpu))
  }

  /** The entry stack pointers at moment j of a run. */
  ghost function Entries(states: seq<State>, actions: seq<Action>, j: nat): seq<Word>
    requires j <= |actions| < |states|
  {
    if j == 0 || states[j - 1].control == [] then []
    else Track(Entries(states, actions, j - 1), Meaning(states[j - 1], actions[j - 1]), EngineSp(states[j].core))
  }

  /** The stack has room for a nested frame of the newest context. */
  predicate RoomAtHead(core: Core)
    requires core.list != []
  {
    var c := Head(core).cpu;
    var p := Newest(Owners(core)[..|core.list| - 1], c);
    p.Some? ==> SYSV_X64_ABI_REDZONE + FrameBytes(c) <= Sp(Owners(core)[p.value].regs.value)
  }

  /**
   * What a step may assume of emulated code and of the stack's size: a nested start finds room;
   * a slice ends at most at the entry stack pointer of the activation itself, plus the return
   * address on x64; and where x64 code calls native code that address has not been popped.
   */
  ghost predicate StepConforms(s: State, entries: seq<Word>, a: Action) {
    s.core.list != [] && |entries| == |s.core.list| ==>
    var n := |entries| - 1;
    var c := Head(s.core).cpu;
    match a
    case CaptureEngine(_) => RoomAtHead(s.core)
    case Slice(regs) => Sp(regs) <= entries[n] + Slack(c)
    case EndSlice(reason) => reason == CallToNative && c == X64 ==> EngineSp(s.core) <= entries[n]
    case _ => true
  }

  /** Every step of the run conforms. */
  ghost predicate ConformingRun(states: seq<State>, actions: seq<Action>, j: nat, slots: nat) {
    && IsRun(states, actions, slots) && j <= |actions|
    && forall i :: 0 <= i < j ==> StepConforms(states[i], Entries(states, actions, i), actions[i])
  }

  /** A caller found at the end of its slice has its return address in its frame, by assumption. */
  lemma NewCallerOk(s: State, entries: seq<Word>, s': State, i: nat, slots: nat)
    requires Inv(s, slots) && Moves(s, EndSlice(CallToNative), s') && |entries| == |s.core.list|
    requires StepConforms(s, entries, EndSlice(CallToNative))
    requires i == |s.control| - 1 && i < |s'.control| && AtCall(s'.control[i])
    ensures CallerOk(s.core, entries, s.control[i])
  {
    Preservation.TopOwnsHead(s, slots);
    OwnerOnTop(s.core);
  }

  lemma OwnsHeadToTouch(s: State, a: Action, s': State, slots: nat)
    requires Inv(s, slots) && Moves(s, a, s') && Touches(a)
    ensures |s.core.list| == |Top(s).at.list| + 1
  {
    TouchedIsNotCaller(s, a, s');
    Preservation.TopOwnsHead(s, slots);
  }

  lemma StepKeepsCaller(s: State, entries: seq<Word>, a: Action, s': State, sp: Word, i: nat)
    requires Chained(s.control) && Moves(s, a, s') && Simulates(s, a, s') && |entries| == |s.core.list|
    requires i < |s.control| && i < |s'.control| && s.control[i].Run? && OnList(s.control[i].phase) && AtCall(s'.control[i])
    requires CallerOk(s.core, entries, s.control[i])
    requires Touches(a) ==> |s.core.list| == |Top(s).at.list| + 1
    requires |s'.control[i].at.list| < |s'.core.list|
    ensures CallerOk(s'.core, Track(entries, Meaning(s, a), sp), s'.control[i])
  {
    Transparency.StepFreezesFrames(s, a, s', i);
    if Touches(a) {
      CallerIsOlder(s, a, s', i);
    } else {
      UntouchedMeaning(s, a);
    }
    OwnerUntouched(Owners(s.core), entries, Meaning(s, a), s.core.initial, s.core.magic, sp, |s.control[i].at.list|);
  }

  /** Before the step a caller was one already, or its slice ends and its return address is in its frame. */
  lemma CallerBefore(s: State, entries: seq<Word>, a: Action, s': State, i: nat)
    requires Chained(s.control) && Moves(s, a, s') && i < |s'.control| && AtCall(s'.control[i]) && CallersOk(s, entries)
    requires a == EndSlice(CallToNative) && i == |s.control| - 1 ==> CallerOk(s.core, entries, s.control[i])
    ensures i < |s.control| && s.control[i].Run? && OnList(s.control[i].phase) && CallerOk(s.core, entries, s.control[i])
  {
    CallerWasThere(s, a, s', i);
  }

  /** What the next lemma needs to know about a caller from the invariant. */
  lemma CallerFacts(s: State, entries: seq<Word>, a: Action, s': State, i: nat, slots: nat)
    requires Inv(s, slots) && Moves(s, a, s') && i < |s'.control| && AtCall(s'.control[i])
    requires |entries| == |s.core.list| && CallersOk(s, entries) && StepConforms(s, entries, a)
    ensures Chained(s.control)
    ensures i < |s.control| && s.control[i].Run? && OnList(s.control[i].phase) && CallerOk(s.core, entries, s.control[i])
    ensures Touches(a) ==> |s.core.list| == |Top(s).at.list| + 1
  {
    if a == EndSlice(CallToNative) && i == |s.control| - 1 {
      NewCallerOk(s, entries, s', i, slots);
    }
    CallerBefore(s, entries, a, s', i);
    if Touches(a) {
      OwnsHeadToTouch(s, a, s', slots);
    }
  }

  lemma CallerKept(s: State, entries: seq<Word>, a: Action, s': State, sp: Word, i: nat, slots: nat)
    requires Inv(s, slots) && Moves(s, a, s') && Simulates(s, a, s') && i < |s'.control| && AtCall(s'.control[i])
    requires |entries| == |s.core.list| && CallersOk(s, entries) && StepConforms(s, entries, a)
    requires |s'.control[i].at.list| < |s'.core.list|
    ensures CallerOk(s'.core, Track(entries, Meaning(s, a), sp), s'.control[i])
  {
    CallerFacts(s, entries, a, s', i, slots);
    StepKeepsCaller(s, entries, a, s', sp, i);
  }

  lemma StepKeepsCallers(s: State, entries: seq<Word>, a: Action, s': State, sp: Word, slots: nat)
    requires Inv(s, slots) && Inv(s', slots) && Moves(s, a, s') && Simulates(s, a, s')
    requires |entries| == |s.core.list| && CallersOk(s, entries) && StepConforms(s, entries, a)
    ensures CallersOk(s', Track(entries, Meaning(s, a), sp))
  {
    forall i {:trigger s'.control[i]} | 0 <= i < |s'.control| && AtCall(s'.control[i])
      ensures CallerOk(s'.core, Track(entries, Meaning(s, a), sp), s'.control[i])
    {
      OwnIsListed(s', i, slots);
      CallerKept(s, entries, a, s', sp, i, slots);
    }
  }

  /** A thunk about to resume still has the return address of its call on the stack. */
  lemma ResumesInFrame(s: State, entries: seq<Word>, slots: nat)
    requires Inv(s, slots) && Top(s).Run? && Top(s).phase.Freeing?
    requires |entries| == |s.core.list| && CallersOk(s, entries)
    ensures var n := |s.core.list| - 1;
            n >= 0 && (Owners(s.core)[n].cpu == X64 && Owners(s.core)[n].regs.Some? ==>
                         Sp(Owners(s.core)[n].regs.value) <= entries[n])
  {
    Preservation.TopOwnsHead(s, slots);
    assert Top(s).cpu == X64 ==> AtCall(s.control[|s.control| - 1]);
  }

  lemma OthersConform(s: State, entries: seq<Word>, a: Action)
    requires s.control != [] && |entries| == |s.core.list| && StepConforms(s, entries, a) && !a.ResumeThunk?
    ensures Conforms(Owners(s.core), entries, Meaning(s, a))
  {
  }

  /** In terms of the simple machine: what a conforming step assumes is what its move may assume. */
  lemma MeaningConforms(s: State, entries: seq<Word>, a: Action, s': State, slots: nat)
    requires Inv(s, slots) && Moves(s, a, s') && |entries| == |s.core.list|
    requires StepConforms(s, entries, a) && CallersOk(s, entries)
    ensures Conforms(Owners(s.core), entries, Meaning(s, a))
  {
    if a.ResumeThunk? {
      ResumesInFrame(s, entries, slots);
    } else {
      OthersConform(s, entries, a);
    }
  }

  /** After a start the engine holds the started owner's registers. */
  lemma StartedSp(s: State, a: Action, s': State)
    requires Moves(s, a, s') && a.CaptureEngine?
    ensures var owners := Owners(s'.core);
            owners != [] && owners[|owners| - 1].regs.Some? ==> EngineSp(s'.core) == Sp(owners[|owners| - 1].regs.value)
  {
    OwnerOnTop(s'.core);
  }

  lemma MeaningIsSensible(s: State, a: Action, s': State, slots: nat)
    requires Inv(s, slots) && Moves(s, a, s')
    ensures Sensible(Owners(s.core), Meaning(s, a))
    ensures Meaning(s, a).Start? ==> a.CaptureEngine?
  {
    if a.Slice? {
      Preservation.TopOwnsHead(s, slots);
    }
  }

  lemma StepKeepsEntries(s: State, entries: seq<Word>, a: Action, s': State, slots: nat)
    requires Inv(s, slots) && Moves(s, a, s') && Simulates(s, a, s')
    requires EntriesOk(Owners(s.core), entries) && CallersOk(s, entries) && StepConforms(s, entries, a)
    ensures EntriesOk(Owners(s'.core), Track(entries, Meaning(s, a), EngineSp(s'.core)))
  {
    MeaningIsSensible(s, a, s', slots);
    if a.CaptureEngine? {
      StartedSp(s, a, s');
    }
    MeaningConforms(s, entries, a, s', slots);
    MoveKeepsEntries(Owners(s.core), entries, Meaning(s, a), s.core.initial, s.core.magic, EngineSp(s'.core));
  }

  lemma StepKeepsFrames(s: State, entries: seq<Word>, a: Action, s': State, slots: nat)
    requires Inv(s, slots) && Inv(s', slots) && Moves(s, a, s') && Simulates(s, a, s')
    requires EntriesOk(Owners(s.core), entries) && CallersOk(s, entries) && StepConforms(s, entries, a)
    ensures EntriesOk(Owners(s'.core), Track(entries, Meaning(s, a), EngineSp(s'.core)))
    ensures CallersOk(s', Track(entries, Meaning(s, a), EngineSp(s'.core)))
  {
    StepKeepsEntries(s, entries, a, s', slots);
    StepKeepsCallers(s, entries, a, s', EngineSp(s'.core), slots);
  }

  /** Along a conforming run every owner stays in its own frame. */
  lemma {:induction false} RunKeepsEntries(states: seq<State>, actions: seq<Action>, j: nat, slots: nat)
    requires ConformingRun(states, actions, j, slots)
    ensures EntriesOk(Owners(states[j].core), Entries(states, actions, j))
    ensures CallersOk(states[j], Entries(states, actions, j))
  {
    if j == 0 {
      InitialOwners(states, actions, slots);
    } else {
      RunKeepsEntries(states, actions, j - 1, slots);
      assert StepConforms(states[j - 1], Entries(states, actions, j - 1), actions[j - 1]);
      RunMoves(states, actions, j - 1, slots);
      StepKeepsFrames(states[j - 1], Entries(states, actions, j - 1), actions[j - 1], states[j], slots);
    }
  }

  lemma InitialOwners(states: seq<State>, actions: seq<Action>, slots: nat)
    requires IsRun(states, actions, slots)
    ensures Owners(states[0].core) == [] && CallersOk(states[0], [])
  {
  }

  /** One step of a run, with what is known about its ends. */
  lemma RunMoves(states: seq<State>, actions: seq<Action>, j: nat, slots: nat)
    requires IsRun(states, actions, slots) && j < |actions|
    ensures Inv(states[j], slots) && Inv(states[j + 1], slots)
    ensures Moves(states[j], actions[j], states[j + 1]) && Simulates(states[j], actions[j], states[j + 1])
  {
    RunKeeps(states, actions, j, slots);
    RunKeeps(states, actions, j + 1, slots);
    RunReaches(states, actions, j, slots);
    SharedEnginesRefinePrivateRegisters(states[j], actions[j], states[j + 1], slots);
  }

  /**
   * What a finished run leaves in its engine: the snapshot, if it took one; otherwise, if the callee
   * returned and kept the ABI, the stack pointer its thunk found; and after a failure just what was there.
   */
  lemma FinishSettlesEngine(s: State, s': State, base: Regs, args: Args, slots: nat)
    requires Reachable(s, slots) && Moves(s, Finish, s')
    ensures var c, x := Top(s).cpu, Head(s.core);
            && (x.saved.Some? ==> s'.core.engine.Get(c) == x.saved.value)
            && (x.saved.None? && Top(s).phase.reason == ReturnToNative
                && AbiReturn(c, PreRegs(c, base, args, s.core.magic), s.core.engine.Get(c)) ==>
                  Sp(s'.core.engine.Get(c)) == Sp(base))
            && (x.saved.None? && Top(s).phase.reason == FailedEmu ==> s'.core.engine == s.core.engine)
            && forall other :: other != c ==> s'.core.engine.Get(other) == s.core.engine.Get(other)
  {
    ReachableInv(s, slots);
    Preservation.TopOwnsHead(s, slots);
    var c := Top(s).cpu;
    if AbiReturn(c, PreRegs(c, base, args, s.core.magic), s.core.engine.Get(c)) {
      PostRestoresStackPointer(c, base, args, s.core.magic, s.core.engine.Get(c));
    }
  }

  /** In a conforming run the running contexts of a CPU are stacked downward, a red zone apart. */
  lemma RunsAreStacked(states: seq<State>, actions: seq<Action>, j: nat, slots: nat)
    requires ConformingRun(states, actions, j, slots)
    ensures Stacked(Owners(states[j].core))
  {
    RunKeepsEntries(states, actions, j, slots);
    EntriesStack(Owners(states[j].core), Entries(states, actions, j));
  }

  /**
   * In a conforming run a nested context, from its start to its end, was entered exactly one red
   * zone and one thunk frame below where the newest older running context of its CPU is
   * suspended, and its own stack pointer is never above what its callee may pop.
   */
  lemma NestedEntryExact(states: seq<State>, actions: seq<Action>, j: nat, p: nat, q: nat, slots: nat)
    requires ConformingRun(states, actions, j, slots) && p < q < |states[j].core.list|
    requires var owners := Owners(states[j].core);
             owners[q].regs.Some? && Newest(owners[..q], owners[q].cpu) == Some(p)
    ensures var owners, entries, c := Owners(states[j].core), Entries(states, actions, j), states[j].core.list[q].cpu;
            && |entries| == |owners|
            && entries[q] == Sp(owners[p].regs.value) - SYSV_X64_ABI_REDZONE - FrameBytes(c)
            && Sp(owners[q].regs.value) <= entries[q] + Slack(c)
  {
    RunKeepsEntries(states, actions, j, slots);
    assert EntryOk(Owners(states[j].core), Entries(states, actions, j), q);
  }

  /** The cells the thunk of a nested start changes, from a core whose owners are stacked. */
  ghost predicate ThunkChanges(core: Core, mem: Memory, args: Args, a: Word)
    requires core.list != []
  {
    var c := Head(core).cpu;
    var r := core.engine.Get(c);
    Load(ThunkPre(c, Guest(RedZone(r), mem), args, core.magic).mem, a) != Load(mem, a)
  }

  lemma ChangesBelowEngine(core: Core, mem: Memory, args: Args, a: Word)
    requires core.list != [] && ThunkChanges(core, mem, args, a)
    requires SYSV_X64_ABI_REDZONE + FrameBytes(Head(core).cpu) <= Sp(core.engine.Get(Head(core).cpu))
    ensures a < Sp(core.engine.Get(Head(core).cpu)) - SYSV_X64_ABI_REDZONE
  {
    var c := Head(core).cpu;
    NestedRunStaysBelowRedZone(c, Guest(core.engine.Get(c), mem), args, core.magic, a);
  }

  /** The engine's stack pointer is at or below that of every suspended context, with room for a frame. */
  lemma EngineBelowOlder(core: Core, p: nat)
    requires SavedRule(core.list) && core.list != [] && !Head(core).started
    requires Stacked(Owners(core)) && RoomAtHead(core)
    requires p < |core.list| - 1 && core.list[p].cpu == Head(core).cpu && core.list[p].started
    ensures var sp := Sp(core.engine.Get(Head(core).cpu));
            SYSV_X64_ABI_REDZONE + FrameBytes(Head(core).cpu) <= sp <= Sp(Owners(core)[p].regs.value)
  {
    var n := |core.list| - 1;
    var c := Head(core).cpu;
    var owners := Owners(core);
    assert owners[..n][p] == owners[p];
    var q := Newest(owners[..n], c);
    assert q.Some? && p <= q.value;
    EngineUnderHead(core);
    if p < q.value {
      assert owners[..n][q.value] == owners[q.value];
    }
  }

  /**
   * In a conforming run, when a context captures the engine over running contexts of its CPU, every
   * memory cell its thunk changes lies below the red zone of every one of them.
   */
  lemma NestedPushesSpareSuspended(
    states: seq<State>, actions: seq<Action>, j: nat, args: Args, mem: Memory, a: Word, p: nat, slots: nat)
    requires j < |actions| && ConformingRun(states, actions, j + 1, slots) && actions[j] == CaptureEngine(args)
    requires var core := states[j].core;
             && p < |core.list| - 1 && core.list[p].cpu == Head(core).cpu && core.list[p].started
             && ThunkChanges(core, mem, args, a)
    ensures a < Sp(Owners(states[j].core)[p].regs.value) - SYSV_X64_ABI_REDZONE
  {
    var s := states[j];
    RunsAreStacked(states, actions, j, slots);
    RunReaches(states, actions, j, slots);
    RunKeepsEntries(states, actions, j, slots);
    assert StepConforms(s, Entries(states, actions, j), actions[j]);
    CaptureAtHead(s, args, states[j + 1], slots);
    EngineBelowOlder(s.core, p);
    ChangesBelowEngine(s.core, mem, args, a);
  }

  /** Capturing is done by the newest context, which has no registers yet. */
  lemma CaptureAtHead(s: State, args: Args, s': State, slots: nat)
    requires Reachable(s, slots) && Moves(s, CaptureEngine(args), s')
    ensures s.core.list != [] && !Head(s.core).started && Top(s).Run? && Top(s).cpu == Head(s.core).cpu
    ensures SavedRule(s.core.list)
  {
    ReachableInv(s, slots);
    Preservation.TopOwnsHead(s, slots);
  }

  /** Under a head without registers, the engine holds those of the newest running context. */
  lemma EngineUnderHead(core: Core)
    requires SavedRule(core.list) && core.list != [] && !Head(core).started
    ensures var n := |core.list| - 1;
            var q := Newest(Owners(core)[..n], Head(core).cpu);
            q.Some? ==> Owners(core)[..n][q.value].regs == Some(core.engine.Get(Head(core).cpu))
  {
    var n := |core.list| - 1;
    OwnersOf(core, Owners(core)[..n], OwnerAt(core, n));
    NewestBelow(Owners(core)[..n], OwnerAt(core, n), Head(core).cpu);
    EngineIsNewest(core, Head(core).cpu);
  }
}

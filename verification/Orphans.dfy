/**
 * Orphan detection (builds with MAU_CHECK_ORPHAN_CONTEXTS): a context whose native stack frame
 * lies below the frame of a newer run can never be returned to and is split off the list.
 */
module Orphans {
  import opened Words
  import opened Interrupts
  import opened Thunks
  import opened RunModel
  import opened RunContexts
  import Machine

  // ----- the split -----

  /** How many of the oldest contexts stay when a run with frame pointer fp starts. */
  function Kept(cookies: seq<Word>, fp: Word): (k: nat)
    ensures k <= |cookies|
  {
    if cookies == [] then 0
    else if fp >= cookies[|cookies| - 1] then Kept(cookies[..|cookies| - 1], fp)
    else |cookies|
  }

  /** The stack grows downward: newer contexts have smaller cookies. */
  ghost predicate Descending(cookies: seq<Word>) {
    forall i, j :: 0 <= i < j < |cookies| ==> cookies[i] > cookies[j]
  }

  /** The split is exact: kept are precisely the contexts with a cookie above fp, and the order is restored. */
  lemma {:induction false} SplitsExactly(cookies: seq<Word>, fp: Word)
    requires Descending(cookies)
    ensures forall i :: 0 <= i < |cookies| ==> (i < Kept(cookies, fp) <==> cookies[i] > fp)
    ensures Descending(cookies[..Kept(cookies, fp)] + [fp])
  {
    if cookies != [] && fp >= cookies[|cookies| - 1] {
      var older := cookies[..|cookies| - 1];
      SplitsExactly(older, fp);
      assert cookies[..Kept(older, fp)] == older[..Kept(older, fp)];
    }
  }

  // ----- the counters -----

  /** The code charges every orphan to the new context's CPU. */
  function Charged(count: PerCpu<int>, c: Cpu, orphans: nat): PerCpu<int> { Bump(count, c, 0 - orphans) }

  lemma {:induction false} CountSplit(list: seq<Ctx>, k: nat, c: Cpu)
    requires k <= |list|
    ensures Count(list, c) == Count(list[..k], c) + Count(list[k..], c)
    decreases |list|
  {
    if k == |list| {
      assert list[..k] == list;
    } else {
      assert list[..|list| - 1][..k] == list[..k];
      assert list[..|list| - 1][k..] == list[k..][..|list| - 1 - k];
      CountSplit(list[..|list| - 1], k, c);
    }
  }

  /** Each single counter is right exactly when every orphan was on the new context's CPU. */
  lemma CountersRightIff(older: seq<Ctx>, x: Ctx, k: nat, count: PerCpu<int>)
    requires k <= |older| && forall c :: count.Get(c) == Count(older + [x], c)
    ensures (forall c :: Charged(count, x.cpu, |older| - k).Get(c) == Count(older[..k] + [x], c)) <==>
            (forall y <- older[k..] :: y.cpu == x.cpu)
  {
    var other := if x.cpu == X64 then AArch64 else X64;
    var after := Charged(count, x.cpu, |older| - k);
    forall c ensures count.Get(c) == Count(older[..k], c) + Count(older[k..], c) + if x.cpu == c then 1 else 0 {
      CountPushed(older, x, c);
      CountSplit(older, k, c);
    }
    forall c ensures Count(older[..k] + [x], c) == Count(older[..k], c) + if x.cpu == c then 1 else 0 {
      CountPushed(older[..k], x, c);
    }
    CountsAddUp(older[k..]);
    NoneIff(older[k..], x.cpu, other);
    assert after.Get(other) == count.Get(other);
    if forall y <- older[k..] :: y.cpu == x.cpu {
      forall c ensures after.Get(c) == Count(older[..k] + [x], c) {
        assert c == x.cpu || c == other;
        assert Count(older[k..], x.cpu) == |older| - k;
      }
    } else {
      assert after.Get(other) != Count(older[..k] + [x], other);
    }
  }

  lemma {:induction false} NoneIff(list: seq<Ctx>, c: Cpu, other: Cpu)
    requires other != c
    ensures Count(list, other) == 0 <==> forall y <- list :: y.cpu == c
  {
    if list != [] {
      var n := |list| - 1;
      NoneIff(list[..n], c, other);
      assert list == list[..n] + [list[n]];
    }
  }

  /** The input that shows it: one x64 run splits off two AArch64 orphans, and its counter assertion fails. */
  lemma CountersCanGoNegative(a: Ctx, b: Ctx, x: Ctx)
    requires a.cpu == AArch64 && b.cpu == AArch64 && x.cpu == X64
    ensures var count := PerCpu(Count([a, b, x], X64), Count([a, b, x], AArch64));
            Charged(count, X64, 2).x64 == -1 && Charged(count, X64, 2).aarch64 == 2
  {
    CountPushed([a, b], x, X64);
    CountPushed([a, b], x, AArch64);
    CountPushed([a], b, X64);
    CountPushed([a], b, AArch64);
    assert [a, b] + [x] == [a, b, x] && [a] + [b] == [a, b] && [a][..0] == [];
    assert Count([a], X64) == 0 && Count([a], AArch64) == 1;
  }

  // ----- histories of a build with orphan detection -----

  /**
   * cookies: the LeakCookie of each listed context. live: the frame pointers of the calls of
   * CpuRunCtxOnPrivateStack that are still on the native stack, outermost first.
   */
  datatype Driver = Driver(core: Core, cookies: seq<Word>, live: seq<Word>)

  const NO_REGS: Regs := seq(NREGS, _ => 0)

  type Tracked = t: Driver | |t.cookies| == |t.core.list|
    witness Driver(Machine.InitialCore(0, PerCpu(NO_REGS, NO_REGS), 0, false), [], [])

  /**
   * StartRun: allocation, listing, detection and freeing for a new context. LeaveNewest: unlisting and
   * freeing a finished one. Unlink: a thunk's repair or an image exit, freeing included. LongJump:
   * native code goes back below some calls, which leaves their contexts listed.
   */
  datatype Event =
    | StartRun(cpu: Cpu, image: Option<nat>, fp: Word)
    | CaptureNewest(args: Args)
    | WriteNewest(regs: Regs)
    | RestoreNewest
    | LeaveNewest
    | Unlink(k: nat)
    | LongJump(depth: nat)

  function OrphansOf(t: Tracked, fp: Word): seq<Ctx> { t.core.list[Kept(t.cookies, fp)..] }

  /** The slot of the next context of CPU c is allocated. */
  function Took(t: Tracked, c: Cpu): Tracked
    requires t.core.free.Get(c) != []
  {
    t.(core := TakeSlot(t.core, c))
  }

  /** Everything up to the capture of the engine: CpuEnterCritical, detection, and the freeing loop. */
  function Start(t: Tracked, x: Ctx, fp: Word): Tracked {
    var k := Kept(t.cookies, fp);
    var entered := Enter(t.core, x);
    Driver(entered.(list := t.core.list[..k] + [x],
                    count := Charged(entered.count, x.cpu, |t.core.list| - k),
                    free := Freed(entered.free, OrphansOf(t, fp)),
                    irq := End(entered.irq)),
           t.cookies[..k] + [fp], t.live + [fp])
  }

  /** Events that cannot happen in a state leave it alone. */
  function Next(t: Tracked, e: Event): Tracked {
    var n := |t.core.list|;
    match e
    case StartRun(cpu, image, fp) =>
      var free := t.core.free.Get(cpu);
      if free != [] then Start(Took(t, cpu), Ctx(free[0], cpu, image, false, None), fp) else t
    case CaptureNewest(args) =>
      if n > 0 && !Head(t.core).started then t.(core := Capture(t.core, args)) else t
    case WriteNewest(regs) =>
      if n > 0 && Head(t.core).started then t.(core := Write(t.core, regs)) else t
    case RestoreNewest => if n > 0 then t.(core := Restore(t.core)) else t
    case LeaveNewest =>
      if n > 0 && !Head(t.core).started && t.live != [] && t.live[|t.live| - 1] == t.cookies[n - 1]
      then
        var x := Head(t.core);
        Driver(PutSlot(Leave(t.core), x.cpu, x.id).(irq := End(Begin(t.core.irq))), t.cookies[..n - 1], t.live[..|t.live| - 1])
      else t
    case Unlink(k) =>
      if k <= n && forall c <- t.cookies[k..] :: c !in t.live
      then Driver(CompressedAndFreed(t.core, k), t.cookies[..k], t.live)
      else t
    case LongJump(depth) => if depth <= |t.live| then t.(live := t.live[..depth]) else t
  }

  function Replay(t: Tracked, events: seq<Event>): Tracked
    decreases |events|
  {
    if events == [] then t else Replay(Next(t, events[0]), events[1..])
  }

  /** ok holds of every event in the state in which it happens. */
  ghost predicate Throughout(t: Tracked, events: seq<Event>, ok: (Tracked, Event) -> bool)
    decreases |events|
  {
    events == [] || (ok(t, events[0]) && Throughout(Next(t, events[0]), events[1..], ok))
  }

  /** From an empty list the cookies descend after any history, so the split is always exact. */
  lemma {:induction false} AlwaysDescending(t: Tracked, events: seq<Event>)
    requires Descending(t.cookies)
    ensures Descending(Replay(t, events).cookies)
    decreases |events|
  {
    if events != [] {
      if events[0].StartRun? {
        SplitsExactly(t.cookies, events[0].fp);
      }
      AlwaysDescending(Next(t, events[0]), events[1..]);
    }
  }

  // ----- live frames -----

  /** The native stack grows downward, and every call still on it has its context listed. */
  ghost predicate LiveListed(t: Tracked) {
    && Descending(t.cookies) && Descending(t.live)
    && forall f <- t.live :: f in t.cookies
  }

  /** A new call's frame lies below those of all calls still on the native stack. */
  predicate GrowsDown(t: Tracked, e: Event) { e.StartRun? ==> forall f <- t.live :: e.fp < f }

  /** Contexts that are split off have no live native frame. */
  lemma LiveAreKept(t: Tracked, fp: Word)
    requires LiveListed(t) && forall f <- t.live :: fp < f
    ensures forall p :: Kept(t.cookies, fp) <= p < |t.cookies| ==> t.cookies[p] !in t.live
    ensures forall f <- t.live :: f in t.cookies[..Kept(t.cookies, fp)]
  {
    SplitsExactly(t.cookies, fp);
    forall f | f in t.live ensures f in t.cookies[..Kept(t.cookies, fp)] {
      var p :| 0 <= p < |t.cookies| && t.cookies[p] == f;
      assert t.cookies[..Kept(t.cookies, fp)][p] == f;
    }
  }

  lemma StartKeepsLive(t: Tracked, x: Ctx, fp: Word)
    requires LiveListed(t) && forall f <- t.live :: fp < f
    ensures LiveListed(Start(t, x, fp))
  {
    var t' := Start(t, x, fp);
    SplitsExactly(t.cookies, fp);
    LiveAreKept(t, fp);
    forall i, j | 0 <= i < j < |t'.live| ensures t'.live[i] > t'.live[j] {
      assert t'.live[i] == t.live[i] && t.live[i] in t.live;
    }
  }

  lemma NextKeepsLive(t: Tracked, e: Event)
    requires LiveListed(t) && GrowsDown(t, e)
    ensures LiveListed(Next(t, e))
  {
    var t' := Next(t, e);
    if e.StartRun? {
      var free := t.core.free.Get(e.cpu);
      if free != [] {
        StartKeepsLive(Took(t, e.cpu), Ctx(free[0], e.cpu, e.image, false, None), e.fp);
      }
    } else if e.Unlink? || e.LeaveNewest? {
      forall f | f in t'.live ensures f in t'.cookies {
        var q :| 0 <= q < |t'.live| && t'.live[q] == f;
        assert t.live[q] == f && f in t.live;
        var p :| 0 <= p < |t.cookies| && t.cookies[p] == f;
        assert t'.cookies[p] == f;
      }
    }
  }

  /**
   * After any history on a stack that grows downward, detection never splits off a context whose
   * native frame is live: what it splits off can never be returned to.
   */
  lemma {:induction false} LiveNeverDetached(t: Tracked, events: seq<Event>, fp: Word)
    requires LiveListed(t) && Throughout(t, events, GrowsDown)
    requires forall f <- Replay(t, events).live :: fp < f
    ensures var t' := Replay(t, events);
            && (forall p :: Kept(t'.cookies, fp) <= p < |t'.cookies| ==> t'.cookies[p] !in t'.live)
            && (forall f <- t'.live :: f in t'.cookies[..Kept(t'.cookies, fp)])
    decreases |events|
  {
    if events == [] {
      LiveAreKept(t, fp);
    } else {
      NextKeepsLive(t, events[0]);
      assert Replay(t, events) == Replay(Next(t, events[0]), events[1..]);
      LiveNeverDetached(Next(t, events[0]), events[1..], fp);
    }
  }

  // ----- the counter total -----

  function Total(core: Core): int { core.count.x64 + core.count.aarch64 }

  lemma UnlinkTotal(core: Core, k: nat)
    requires k <= |core.list|
    ensures Total(Compress(core, k)) == Total(core) - (|core.list| - k)
  {
    DroppedCounts(core.list, core.count, k, X64);
    DroppedCounts(core.list, core.count, k, AArch64);
    CountsAddUp(core.list);
    CountsAddUp(core.list[..k]);
  }

  /**
   * Whatever CPUs the orphans of a history had, and however wrong the single counters are by then,
   * the counters add up to the list length.
   */
  lemma {:induction false} TotalConserved(t: Tracked, events: seq<Event>)
    requires Total(t.core) == |t.core.list|
    ensures Total(Replay(t, events).core) == |Replay(t, events).core.list|
    decreases |events|
  {
    if events != [] {
      if events[0].Unlink? && events[0].k <= |t.core.list| {
        UnlinkTotal(t.core, events[0].k);
      }
      TotalConserved(Next(t, events[0]), events[1..]);
    }
  }

  // ----- the pools -----

  lemma {:induction false} FreedSlots(free: PerCpu<seq<nat>>, chain: seq<Ctx>, c: Cpu, id: nat)
    ensures multiset(Freed(free, chain).Get(c))[id] == multiset(free.Get(c))[id] + Holds(chain, c, id)
    decreases |chain|
  {
    if chain != [] {
      var x := chain[|chain| - 1];
      FreedSlots(free.Set(x.cpu, free.Get(x.cpu) + [x.id]), chain[..|chain| - 1], c, id);
    }
  }

  /** How often slot id of CPU c is free or listed. */
  function Places(core: Core, c: Cpu, id: nat): nat { multiset(core.free.Get(c))[id] + Holds(core.list, c, id) }

  lemma StartPlaces(t: Tracked, cpu: Cpu, image: Option<nat>, fp: Word, c: Cpu, id: nat)
    requires t.core.free.Get(cpu) != []
    ensures Places(Next(t, StartRun(cpu, image, fp)).core, c, id) == Places(t.core, c, id)
  {
    var free := t.core.free.Get(cpu);
    var k := Kept(t.cookies, fp);
    FreedSlots(TakeSlot(t.core, cpu).free, OrphansOf(t, fp), c, id);
    HoldsSplit(t.core.list, k, c, id);
    HoldsPushed(t.core.list[..k], Ctx(free[0], cpu, image, false, None), c, id);
    assert free == [free[0]] + free[1..];
  }

  /** Only the newest context's snapshot and mark change. */
  lemma HeadPlaces(core: Core, core': Core, c: Cpu, id: nat)
    requires core.list != [] && |core'.list| == |core.list| && core'.free == core.free
    requires core'.list[..|core.list| - 1] == core.list[..|core.list| - 1]
    requires Head(core').id == Head(core).id && Head(core').cpu == Head(core).cpu
    ensures Places(core', c, id) == Places(core, c, id)
  {
  }

  lemma LeavePlaces(core: Core, c: Cpu, id: nat)
    requires core.list != []
    ensures Places(PutSlot(Leave(core), Head(core).cpu, Head(core).id), c, id) == Places(core, c, id)
  {
  }

  lemma UnlinkPlaces(core: Core, k: nat, c: Cpu, id: nat)
    requires k <= |core.list|
    ensures Places(CompressedAndFreed(core, k), c, id) == Places(core, c, id)
  {
    FreedSlots(core.free, Idled(core.list[k..]), c, id);
    HoldsIdled(core.list[k..], c, id);
    HoldsSplit(core.list, k, c, id);
  }

  lemma NextPlaces(t: Tracked, e: Event, c: Cpu, id: nat)
    ensures Places(Next(t, e).core, c, id) == Places(t.core, c, id)
  {
    var n := |t.core.list|;
    match e
    case StartRun(cpu, image, fp) => if t.core.free.Get(cpu) != [] { StartPlaces(t, cpu, image, fp, c, id); }
    case CaptureNewest(args) => if n > 0 { HeadPlaces(t.core, Capture(t.core, args), c, id); }
    case WriteNewest(regs) =>
    case RestoreNewest => if n > 0 { HeadPlaces(t.core, Restore(t.core), c, id); }
    case LeaveNewest => if n > 0 { LeavePlaces(t.core, c, id); }
    case Unlink(k) => if k <= n { UnlinkPlaces(t.core, k, c, id); }
    case LongJump(_) =>
  }

  /** Orphans go back to their pools: over any history each slot stays exactly as often free or listed as it was. */
  lemma {:induction false} SlotsConserved(t: Tracked, events: seq<Event>, c: Cpu, id: nat)
    ensures Places(Replay(t, events).core, c, id) == Places(t.core, c, id)
    decreases |events|
  {
    if events != [] {
      NextPlaces(t, events[0], c, id);
      SlotsConserved(Next(t, events[0]), events[1..], c, id);
    }
  }

  /** Every event closes the sections it opens and leaves real interrupts as it found them. */
  lemma {:induction false} SectionsClosed(t: Tracked, events: seq<Event>)
    requires t.core.irq.depth == 0
    ensures Replay(t, events).core.irq.depth == 0 && Replay(t, events).core.irq.hw == t.core.irq.hw
    decreases |events|
  {
    if events != [] {
      SectionsClosed(Next(t, events[0]), events[1..]);
    }
  }

  // ----- the snapshot rule -----

  /** All orphans of a start are on its own CPU. */
  predicate SameCpu(t: Tracked, e: Event) { e.StartRun? ==> forall y <- OrphansOf(t, e.fp) :: y.cpu == e.cpu }

  lemma StartCountsIff(t: Tracked, x: Ctx, fp: Word)
    requires forall c :: t.core.count.Get(c) == Count(t.core.list, c)
    ensures var core := Start(t, x, fp).core;
            (forall c :: core.count.Get(c) == Count(core.list, c)) <==> (forall y <- OrphansOf(t, fp) :: y.cpu == x.cpu)
  {
    var count := Enter(t.core, x).count;
    forall c ensures count.Get(c) == Count(t.core.list + [x], c) {
      assert t.core.count.Get(c) == Count(t.core.list, c);
      CountPushed(t.core.list, x, c);
    }
    CountersRightIff(t.core.list, x, Kept(t.cookies, fp), count);
  }

  lemma StartKeepsRule(t: Tracked, x: Ctx, fp: Word)
    requires SavedRule(t.core.list) && !x.started && x.saved.None?
    ensures SavedRule(Start(t, x, fp).core.list)
  {
    SavedRulePrefix(t.core.list, Kept(t.cookies, fp));
    SavedRulePushed(t.core.list[..Kept(t.cookies, fp)], x);
  }

  /** Counters and snapshot rule survive detection exactly when the orphans share the new context's CPU. */
  lemma StartKeepsListIff(t: Tracked, x: Ctx, fp: Word)
    requires ListOk(t.core) && !x.started && x.saved.None?
    ensures ListOk(Start(t, x, fp).core) <==> forall y <- OrphansOf(t, fp) :: y.cpu == x.cpu
  {
    StartCountsIff(t, x, fp);
    StartKeepsRule(t, x, fp);
  }

  /**
   * What goes wrong otherwise: the new context's own nested test sees its counter lowered by the
   * orphans of the other CPU, and takes a snapshot when it has to exactly if fewer of those went
   * than contexts of its CPU stay, or none of its CPU stays.
   */
  lemma NestedTestRightIff(t: Tracked, x: Ctx, fp: Word)
    requires ListOk(t.core)
    ensures var kept := t.core.list[..Kept(t.cookies, fp)];
            var foreign := |OrphansOf(t, fp)| - Count(OrphansOf(t, fp), x.cpu);
            (Start(t, x, fp).core.count.Get(x.cpu) > 1 <==> Count(kept, x.cpu) > 0) <==>
            Count(kept, x.cpu) == 0 || foreign < Count(kept, x.cpu)
  {
    CountSplit(t.core.list, Kept(t.cookies, fp), x.cpu);
    CountsAddUp(OrphansOf(t, fp));
    assert t.core.count.Get(x.cpu) == Count(t.core.list, x.cpu);
  }

  lemma NextKeepsList(t: Tracked, e: Event)
    requires ListOk(t.core) && SameCpu(t, e)
    ensures ListOk(Next(t, e).core)
  {
    var n := |t.core.list|;
    match e
    case StartRun(cpu, image, fp) =>
      var free := t.core.free.Get(cpu);
      if free != [] { StartKeepsListIff(Took(t, cpu), Ctx(free[0], cpu, image, false, None), fp); }
    case CaptureNewest(args) => if n > 0 && !Head(t.core).started { CaptureKeeps(t.core, args); }
    case WriteNewest(regs) => if n > 0 && Head(t.core).started { WriteKeeps(t.core, regs); }
    case RestoreNewest => if n > 0 { RestoreKeeps(t.core); }
    case LeaveNewest => if n > 0 && !Head(t.core).started { LeaveKeeps(t.core); }
    case Unlink(k) => if k <= n { CompressKeeps(t.core, k); }
    case LongJump(_) =>
  }

  /** Counters and snapshot rule hold after every history whose orphans share the CPU of what detects them. */
  lemma {:induction false} HistoryKeepsList(t: Tracked, events: seq<Event>)
    requires ListOk(t.core) && Throughout(t, events, SameCpu)
    ensures ListOk(Replay(t, events).core)
    decreases |events|
  {
    if events != [] {
      NextKeepsList(t, events[0]);
      HistoryKeepsList(Next(t, events[0]), events[1..]);
    }
  }

  /** CpuFreeContext asserts for each orphan that it carries no snapshot. */
  predicate Freeable(orphans: seq<Ctx>) { forall y <- orphans :: y.saved.None? }

  /**
   * After every such history the orphans of the next start can be freed exactly when none that was
   * still running had been started over an older context of its CPU.
   */
  lemma OrphansFreeableIff(t: Tracked, events: seq<Event>, fp: Word)
    requires ListOk(t.core) && Throughout(t, events, SameCpu)
    ensures var t' := Replay(t, events);
            var list := t'.core.list;
            Freeable(OrphansOf(t', fp)) <==>
            forall p {:trigger list[p]} :: Kept(t'.cookies, fp) <= p < |list| && list[p].started ==>
              Count(list[..p], list[p].cpu) == 0
  {
    HistoryKeepsList(t, events);
    var t' := Replay(t, events);
    var list, k := t'.core.list, Kept(t'.cookies, fp);
    forall p {:trigger list[p]} | k <= p < |list| ensures list[p] in OrphansOf(t', fp) {
      assert list[k..][p - k] == list[p];
    }
  }

  /** A fresh driver meets what the lemmas about histories ask of their starting point. */
  lemma FreshIsOk(slots: nat, initial: PerCpu<Regs>, magic: Word, hw: bool)
    ensures var t: Tracked := Driver(Machine.InitialCore(slots, initial, magic, hw), [], []);
            ListOk(t.core) && LiveListed(t) && Total(t.core) == |t.core.list|
  {
  }

  // ----- runs that come back -----

  /** Emulated code has run for a while in a new context. */
  function Begun(cpu: Cpu, image: Option<nat>, fp: Word, args: Args, regs: Regs): seq<Event> {
    [StartRun(cpu, image, fp), CaptureNewest(args), WriteNewest(regs)]
  }

  /** The same list, cookies, counters and native stack, and the same registers in every engine that has a context. */
  ghost predicate NoTrace(t: Tracked, t': Tracked) {
    && t'.cookies == t.cookies && t'.live == t.live && t'.core.list == t.core.list && t'.core.count == t.core.count
    && forall c | Count(t.core.list, c) > 0 :: t'.core.engine.Get(c) == t.core.engine.Get(c)
  }

  /** The new context is on top, running, with a snapshot of what its engine held if somebody needs that. */
  ghost predicate RunsOnTop(t: Tracked, t': Tracked, cpu: Cpu, fp: Word) {
    && t'.cookies == t.cookies + [fp] && t'.live == t.live + [fp]
    && t'.core.count == Bump(t.core.count, cpu, 1) && |t'.core.list| == |t.core.list| + 1
    && t'.core.list[..|t.core.list|] == t.core.list && Head(t'.core).cpu == cpu && Head(t'.core).started
    && Head(t'.core).saved == (if Count(t.core.list, cpu) > 0 then Some(t.core.engine.Get(cpu)) else None)
    && forall c :: c != cpu ==> t'.core.engine.Get(c) == t.core.engine.Get(c)
  }

  lemma BegunReplay(t: Tracked, cpu: Cpu, image: Option<nat>, fp: Word, args: Args, regs: Regs, rest: seq<Event>)
    ensures var t1 := Next(t, StartRun(cpu, image, fp));
            var t2 := Next(t1, CaptureNewest(args));
            Replay(t, Begun(cpu, image, fp, args, regs) + rest) == Replay(Next(t2, WriteNewest(regs)), rest)
  {
    var e := Begun(cpu, image, fp, args, regs) + rest;
    assert e[1..] == [CaptureNewest(args), WriteNewest(regs)] + rest;
    assert e[1..][1..] == [WriteNewest(regs)] + rest;
    assert e[1..][1..][1..] == rest;
    var t1 := Next(t, e[0]);
    var t2 := Next(t1, e[1]);
    assert Replay(t, e) == Replay(t1, e[1..]) == Replay(t2, e[1..][1..]) == Replay(Next(t2, e[2]), rest);
  }

  lemma BegunOnTop(t: Tracked, cpu: Cpu, image: Option<nat>, fp: Word, args: Args, regs: Regs)
    requires ListOk(t.core) && t.core.free.Get(cpu) != [] && forall f <- t.cookies :: fp < f
    ensures var t1 := Next(t, StartRun(cpu, image, fp));
            var t2 := Next(t1, CaptureNewest(args));
            RunsOnTop(t, Next(t2, WriteNewest(regs)), cpu, fp)
  {
    var t1 := Next(t, StartRun(cpu, image, fp));
    StartOnTop(t, cpu, image, fp);
    assert t.core.count.Get(cpu) == Count(t.core.list, cpu);
    CaptureOnTop(t1.core, args);
  }

  lemma StartOnTop(t: Tracked, cpu: Cpu, image: Option<nat>, fp: Word)
    requires t.core.free.Get(cpu) != [] && forall f <- t.cookies :: fp < f
    ensures var t1 := Next(t, StartRun(cpu, image, fp));
            && t1.cookies == t.cookies + [fp] && t1.live == t.live + [fp]
            && t1.core.count == Bump(t.core.count, cpu, 1) && t1.core.engine == t.core.engine
            && t1.core.list == t.core.list + [Ctx(t.core.free.Get(cpu)[0], cpu, image, false, None)]
  {
    NothingOrphaned(t, fp);
    assert t.core.list[..|t.core.list|] == t.core.list && t.cookies[..|t.cookies|] == t.cookies;
  }

  lemma CaptureOnTop(core: Core, args: Args)
    requires core.list != []
    ensures var n, x, core' := |core.list| - 1, Head(core), Capture(core, args);
            && core'.count == core.count && |core'.list| == n + 1 && core'.list[..n] == core.list[..n]
            && Head(core').cpu == x.cpu && Head(core').started
            && Head(core').saved == (if core.count.Get(x.cpu) > 1 then Some(core.engine.Get(x.cpu)) else None)
            && forall c :: c != x.cpu ==> core'.engine.Get(c) == core.engine.Get(c)
  {
  }

  lemma FinishLeavesNoTrace(t: Tracked, t': Tracked, cpu: Cpu, fp: Word)
    requires RunsOnTop(t, t', cpu, fp)
    ensures NoTrace(t, Next(Next(t', RestoreNewest), LeaveNewest))
  {
    var t2 := Next(t', RestoreNewest);
    assert t2.core.list[..|t.core.list|] == t.core.list;
  }

  lemma RepairLeavesNoTrace(t: Tracked, t': Tracked, cpu: Cpu, fp: Word)
    requires RunsOnTop(t, t', cpu, fp) && forall f <- t.live :: fp < f
    ensures NoTrace(t, Next(Next(t', LongJump(|t.live|)), Unlink(|t.core.list|)))
  {
    var n, list := |t.core.list|, t'.core.list;
    assert list == t.core.list + [Head(t'.core)];
    UnwoundPushed(t.core.list, Head(t'.core), t'.core.engine, n);
    assert Dropped(list, t'.core.count, n) == Dropped(list[..n], Bump(t'.core.count, cpu, -1), n);
    assert t'.cookies[n..] == [fp] && t'.live[..|t.live|] == t.live;
  }

  /**
   * A run below everything listed leaves no trace, neither when it comes to its end nor when native
   * code jumps over it and a repair follows.
   */
  lemma RunLeavesNoTrace(t: Tracked, cpu: Cpu, image: Option<nat>, fp: Word, args: Args, regs: Regs)
    requires ListOk(t.core) && t.core.free.Get(cpu) != []
    requires (forall f <- t.cookies :: fp < f) && (forall f <- t.live :: fp < f)
    ensures NoTrace(t, Replay(t, Begun(cpu, image, fp, args, regs) + [RestoreNewest, LeaveNewest]))
    ensures NoTrace(t, Replay(t, Begun(cpu, image, fp, args, regs) + [LongJump(|t.live|), Unlink(|t.core.list|)]))
  {
    var t' := Next(Next(Next(t, StartRun(cpu, image, fp)), CaptureNewest(args)), WriteNewest(regs));
    BegunOnTop(t, cpu, image, fp, args, regs);
    BegunReplay(t, cpu, image, fp, args, regs, [RestoreNewest, LeaveNewest]);
    ReplayTwo(t', RestoreNewest, LeaveNewest);
    FinishLeavesNoTrace(t, t', cpu, fp);
    BegunReplay(t, cpu, image, fp, args, regs, [LongJump(|t.live|), Unlink(|t.core.list|)]);
    ReplayTwo(t', LongJump(|t.live|), Unlink(|t.core.list|));
    RepairLeavesNoTrace(t, t', cpu, fp);
  }

  lemma ReplayTwo(t: Tracked, a: Event, b: Event)
    ensures Replay(t, [a, b]) == Next(Next(t, a), b)
  {
    assert [a, b][1..] == [b] && [b][1..] == [];
    assert Replay(Next(t, a), [b]) == Replay(Next(Next(t, a), b), []);
  }

  // ----- orphans that cannot be freed -----

  /** A run starts and captures the engine. */
  function Runs(fp: Word, args: Args): seq<Event> { [StartRun(X64, None, fp), CaptureNewest(args)] }

  /** Two nested x64 runs, both jumped over. */
  function JumpedOver(fp1: Word, fp2: Word, args: Args): seq<Event> {
    Runs(fp1, args) + Runs(fp2, args) + [LongJump(0)]
  }

  lemma {:induction false} ReplayAppend(t: Tracked, first: seq<Event>, rest: seq<Event>, ok: (Tracked, Event) -> bool)
    ensures Replay(t, first + rest) == Replay(Replay(t, first), rest)
    ensures Throughout(t, first + rest, ok) <==> Throughout(t, first, ok) && Throughout(Replay(t, first), rest, ok)
    decreases |first|
  {
    if first == [] {
      assert first + rest == rest;
    } else {
      assert (first + rest)[1..] == first[1..] + rest;
      ReplayAppend(Next(t, first[0]), first[1..], rest, ok);
    }
  }

  lemma RunsReplay(t: Tracked, fp: Word, args: Args, ok: (Tracked, Event) -> bool)
    ensures var t1 := Next(t, StartRun(X64, None, fp));
            && Replay(t, Runs(fp, args)) == Next(t1, CaptureNewest(args))
            && (Throughout(t, Runs(fp, args), ok) <==>
                ok(t, StartRun(X64, None, fp)) && ok(t1, CaptureNewest(args)))
  {
    var e := Runs(fp, args);
    var t1 := Next(t, e[0]);
    var t2 := Next(t1, e[1]);
    assert e[1..] == [e[1]] && e[1..][1..] == [];
    assert Replay(t1, e[1..]) == Replay(t2, []) == t2;
    assert Throughout(t1, e[1..], ok) <==> ok(t1, e[1]) && Throughout(t2, [], ok);
  }

  lemma NothingOrphaned(t: Tracked, fp: Word)
    requires forall f <- t.cookies :: fp < f
    ensures Kept(t.cookies, fp) == |t.cookies| && OrphansOf(t, fp) == []
  {
    assert t.cookies != [] ==> t.cookies[|t.cookies| - 1] in t.cookies;
  }

  /** Over x64 contexts a capture takes a snapshot, and alone it does not. */
  lemma CapturedX64(core: Core, args: Args)
    requires core.list != [] && Head(core).cpu == X64
    ensures var core' := Capture(core, args);
            && core'.count == core.count && |core'.list| == |core.list| && Head(core').cpu == X64
            && core'.list[..|core.list| - 1] == core.list[..|core.list| - 1]
            && (Head(core').saved.Some? <==> core.count.x64 > 1)
  {
  }

  /** A run that starts below everything listed joins the list and takes a snapshot if it is nested. */
  lemma RunsBelow(t: Tracked, fp: Word, args: Args)
    requires t.core.free.x64 != [] && forall f <- t.cookies :: fp < f
    ensures var t' := Replay(t, Runs(fp, args));
            && t'.core.free.x64 == t.core.free.x64[1..]
            && t'.cookies == t.cookies + [fp] && t'.live == t.live + [fp]
            && t'.core.count == Bump(t.core.count, X64, 1) && |t'.core.list| == |t.core.list| + 1
            && (Head(t'.core).saved.Some? <==> t.core.count.x64 > 0)
  {
    RunsReplay(t, fp, args, SameCpu);
    NothingOrphaned(t, fp);
    CapturedX64(Next(t, StartRun(X64, None, fp)).core, args);
  }

  lemma RunsBelowConform(t: Tracked, fp: Word, args: Args)
    requires (forall f <- t.cookies :: fp < f) && (forall f <- t.live :: fp < f)
    ensures Throughout(t, Runs(fp, args), SameCpu) && Throughout(t, Runs(fp, args), GrowsDown)
  {
    RunsReplay(t, fp, args, SameCpu);
    RunsReplay(t, fp, args, GrowsDown);
    NothingOrphaned(t, fp);
  }

  lemma JumpReplay(t: Tracked, ok: (Tracked, Event) -> bool)
    ensures Replay(t, [LongJump(0)]) == t.(live := [])
    ensures Throughout(t, [LongJump(0)], ok) <==> ok(t, LongJump(0))
  {
    var e := [LongJump(0)];
    assert e[1..] == [];
    assert Replay(Next(t, e[0]), e[1..]) == Next(t, e[0]);
    assert Throughout(Next(t, e[0]), e[1..], ok);
  }

  /** What the history below leads to. */
  lemma JumpedOverReplay(t: Tracked, fp1: Word, fp2: Word, args: Args)
    requires t.core.list == [] && t.live == [] && t.core.count == PerCpu(0, 0) && |t.core.free.x64| >= 2 && fp2 < fp1
    ensures var t' := Replay(t, JumpedOver(fp1, fp2, args));
            t'.live == [] && t'.cookies == [fp1, fp2] && Head(t'.core).saved.Some?
  {
    var both := Runs(fp1, args) + Runs(fp2, args);
    NestedReplay(t, fp1, fp2, args);
    ReplayAppend(t, both, [LongJump(0)], SameCpu);
    JumpReplay(Replay(t, both), SameCpu);
  }

  lemma NestedReplay(t: Tracked, fp1: Word, fp2: Word, args: Args)
    requires t.core.list == [] && t.live == [] && t.core.count == PerCpu(0, 0) && |t.core.free.x64| >= 2 && fp2 < fp1
    ensures var t' := Replay(t, Runs(fp1, args) + Runs(fp2, args));
            t'.cookies == [fp1, fp2] && Head(t'.core).saved.Some?
  {
    RunsBelow(t, fp1, args);
    RunsBelow(Replay(t, Runs(fp1, args)), fp2, args);
    ReplayAppend(t, Runs(fp1, args), Runs(fp2, args), SameCpu);
  }

  lemma JumpedOverConforms(t: Tracked, fp1: Word, fp2: Word, args: Args)
    requires t.core.list == [] && t.live == [] && |t.core.free.x64| >= 2 && fp2 < fp1
    ensures Throughout(t, JumpedOver(fp1, fp2, args), SameCpu) && Throughout(t, JumpedOver(fp1, fp2, args), GrowsDown)
  {
    var first, both := Runs(fp1, args), Runs(fp1, args) + Runs(fp2, args);
    RunsBelow(t, fp1, args);
    RunsBelowConform(t, fp1, args);
    RunsBelowConform(Replay(t, first), fp2, args);
    ReplayAppend(t, first, Runs(fp2, args), SameCpu);
    ReplayAppend(t, first, Runs(fp2, args), GrowsDown);
    ReplayAppend(t, both, [LongJump(0)], SameCpu);
    ReplayAppend(t, both, [LongJump(0)], GrowsDown);
    JumpReplay(Replay(t, both), SameCpu);
    JumpReplay(Replay(t, both), GrowsDown);
  }

  /**
   * The history that shows it: two nested x64 runs are jumped over by native code, and the next
   * run, from further up the stack, finds both orphaned. The inner one still carries the outer
   * one's registers, and the assertion of CpuFreeContext fails.
   */
  lemma OrphanAssertionCanFail(t: Tracked, fp1: Word, fp2: Word, fp: Word, args: Args)
    requires t.core.list == [] && t.live == [] && t.core.count == PerCpu(0, 0) && |t.core.free.x64| >= 2 && fp2 < fp1 <= fp
    ensures var t' := Replay(t, JumpedOver(fp1, fp2, args));
            && t'.live == [] && |OrphansOf(t', fp)| == 2 && !Freeable(OrphansOf(t', fp))
    ensures Throughout(t, JumpedOver(fp1, fp2, args), SameCpu) && Throughout(t, JumpedOver(fp1, fp2, args), GrowsDown)
  {
    JumpedOverReplay(t, fp1, fp2, args);
    JumpedOverConforms(t, fp1, fp2, args);
    var t' := Replay(t, JumpedOver(fp1, fp2, args));
    assert [fp1, fp2][..1] == [fp1] && [fp1][..0] == [];
    assert Kept([fp1], fp) == Kept([fp1][..0], fp) == 0;
    assert OrphansOf(t', fp) == t'.core.list && Head(t'.core) in t'.core.list;
  }

  // ----- the algorithm on the linked list -----

  ghost function LeakCookies(nodes: seq<CpuRunContext>): (r: seq<Word>)
    reads nodes
    ensures |r| == |nodes| && forall i :: 0 <= i < |nodes| ==> r[i] == nodes[i].leakCookie
  {
    seq(|nodes|, i requires 0 <= i < |nodes| reads nodes => nodes[i].leakCookie)
  }

  lemma KeptStep(cookies: seq<Word>, j: nat, fp: Word)
    requires j < |cookies| && fp >= cookies[j]
    ensures Kept(cookies[..j + 1], fp) == Kept(cookies[..j], fp)
  {
    assert cookies[..j + 1][..j] == cookies[..j];
  }

  /** One turn of the first loop. */
  method SkipOne(e: Emulator, context: CpuRunContext, ghost older: seq<CpuRunContext>, ghost j: nat)
    returns (asserted: bool)
    requires e.ChainOf(older) && context !in older && 0 < j <= |older| && context.prevContext == older[j - 1]
    modifies context`prevContext, context.cpu`contexts
    ensures context.prevContext == e.EndOf(older, j - 1)
    ensures context.cpu.contexts == old(context.cpu.contexts) - 1
    ensures asserted <==> context.cpu.contexts >= 0
  {
    context.cpu.contexts := context.cpu.contexts - 1;
    asserted := context.cpu.contexts >= 0;
    assert e.ChainLink(older, j - 1);
    context.prevContext := context.prevContext.prevContext;
  }

  /** The first loop: steps over orphans, charging each to the new context's CPU. */
  method SkipOrphans(e: Emulator, context: CpuRunContext, ghost older: seq<CpuRunContext>)
    returns (orphan: CpuRunContext?, asserted: bool)
    requires e.ChainOf(older) && context !in older && context.prevContext == e.EndOf(older, |older|)
    requires context.cpu.contexts >= 0
    modifies context`prevContext, context.cpu`contexts
    ensures var k := Kept(LeakCookies(older), context.leakCookie);
            && context.prevContext == e.EndOf(older, k)
            && context.cpu.contexts == old(context.cpu.contexts) - (|older| - k)
            && orphan == (if k == |older| then null else e.EndOf(older, |older|))
    ensures asserted <==> context.cpu.contexts >= 0
  {
    ghost var cookies := LeakCookies(older);
    ghost var j: nat := |older|;
    orphan, asserted := null, true;
    assert cookies[..j] == cookies;
    while context.prevContext != null && context.leakCookie >= context.prevContext.leakCookie
      invariant j <= |older| && context.prevContext == e.EndOf(older, j)
      invariant Kept(cookies[..j], context.leakCookie) == Kept(cookies, context.leakCookie)
      invariant context.cpu.contexts == old(context.cpu.contexts) - (|older| - j)
      invariant orphan == if j == |older| then null else e.EndOf(older, |older|)
      invariant asserted <==> context.cpu.contexts >= 0
      decreases j
    {
      if orphan == null {
        orphan := context.prevContext;
      }
      asserted := SkipOne(e, context, older, j);
      KeptStep(cookies, j - 1, context.leakCookie);
      j := j - 1;
    }
    assert j > 0 ==> cookies[..j][j - 1] == older[j - 1].leakCookie;
  }

  /** The second loop: cuts the detached chain right above the context that stays. */
  method CutChain(e: Emulator, orphan: CpuRunContext, rest: CpuRunContext?, ghost older: seq<CpuRunContext>, ghost k: nat)
    requires e.ChainOf(older) && k < |older| && orphan == older[|older| - 1] && rest == e.EndOf(older, k)
    modifies older`prevContext
    ensures older[k].prevContext == null
    ensures forall i :: 0 <= i < |older| && i != k ==> older[i].prevContext == old(older[i].prevContext)
  {
    var iter := orphan;
    ghost var j: nat := |older| - 1;
    assert e.ChainLink(older, j);
    while iter.prevContext != rest
      invariant k <= j < |older| && iter == older[j] && iter.prevContext == e.EndOf(older, j)
      decreases j
    {
      iter := iter.prevContext;
      j := j - 1;
      assert e.ChainLink(older, j);
    }
    iter.prevContext := null;
  }

  /**
   * CpuDetectOrphanContexts, called for the newest context with its frame pointer. The contexts
   * split off form one null-terminated chain, newest first; the rest stays linked under the new
   * context; asserted tells whether the counter assertion held.
   */
  method DetectOrphans(e: Emulator, context: CpuRunContext, fp: Word, ghost older: seq<CpuRunContext>)
    returns (orphan: CpuRunContext?, asserted: bool)
    requires e.ChainOf(older) && context !in older && context.prevContext == e.EndOf(older, |older|)
    requires context.cpu.contexts >= 0
    modifies context`prevContext, context`leakCookie, context.cpu`contexts, older`prevContext
    ensures context.leakCookie == fp
    ensures var k := Kept(old(LeakCookies(older)), fp);
            && context.prevContext == e.EndOf(older, k)
            && context.cpu.contexts == old(context.cpu.contexts) - (|older| - k)
            && (if k == |older| then orphan == null else orphan == older[|older| - 1] && older[k].prevContext == null)
            && forall i :: 0 <= i < |older| && i != k ==> older[i].prevContext == old(older[i].prevContext)
    ensures asserted <==> context.cpu.contexts >= 0
  {
    ghost var cookies := LeakCookies(older);
    context.leakCookie := fp;
    assert LeakCookies(older) == cookies;
    orphan, asserted := SkipOrphans(e, context, older);
    assert e.ChainOf(older) by {
      forall i: nat | i < |older| ensures e.ChainLink(older, i) {
        assert old(e.ChainLink(older, i));
      }
    }
    if orphan != null {
      CutChain(e, orphan, context.prevContext, older, Kept(cookies, fp));
    }
  }

  /** CpuFreeOrphanContexts on the chain that was split off; CpuFreeContext's assertions are the preconditions. */
  method FreeOrphans(e: Emulator, orphan: CpuRunContext?, ghost chain: seq<CpuRunContext>, ghost views: seq<Ctx>)
    requires e.x64.cpu == X64 && e.aarch64.cpu == AArch64
    requires e.Waiting(chain, |chain|) && orphan == if chain == [] then null else chain[|chain| - 1]
    requires forall i {:trigger e.ChainedAt(chain, null, i)} :: 0 <= i < |chain| ==> e.ChainedAt(chain, null, i)
    requires |views| == |chain| && forall i :: 0 <= i < |chain| ==> views[i] == chain[i].View()
    modifies e.x64`freeSlots, e.aarch64`freeSlots
    ensures e.Pools() == Freed(old(e.Pools()), views)
  {
    e.FreeLeaked(orphan, null, chain, views);
  }
}

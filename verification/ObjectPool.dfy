/** The arena allocator behind the run contexts: a ring of free slots threaded through the arena. */
module ObjectPool {
  import opened Words

  const EFI_PAGE_SIZE := 4096

  /** sizeof (ObjectHeader): a signature and two links. */
  const HEADER_SIZE := 24

  // ----- arena arithmetic -----

  /** ROUND_UP: clearing the bits of n - 1, for n a power of two, takes off the remainder. */
  function RoundUp(x: nat, n: nat): nat
    requires n > 0
  {
    x + n - 1 - (x + n - 1) % n
  }

  lemma Pow2Of64()
    ensures Pow2(64) == TWO64
  {
    Byte(0);
    Byte(8);
    Byte(16);
    Byte(24);
    Byte(32);
    Byte(40);
    Byte(48);
    Byte(56);
  }

  lemma Byte(k: nat)
    ensures Pow2(k + 8) == 0x100 * Pow2(k)
  {
    assert Pow2(k + 2) == 2 * Pow2(k + 1) == 4 * Pow2(k);
    assert Pow2(k + 4) == 2 * Pow2(k + 3) == 4 * Pow2(k + 2);
    assert Pow2(k + 6) == 2 * Pow2(k + 5) == 4 * Pow2(k + 4);
    assert Pow2(k + 8) == 2 * Pow2(k + 7) == 4 * Pow2(k + 6);
  }

  /** The macro, ((x) + ((n) - 1)) & ~((n) - 1) on 64 bits, is RoundUp for every power of two n. */
  lemma MaskRoundsUp(x: nat, k: nat)
    requires k < 64 && x + Pow2(k) <= TWO64
    ensures Pow2(k) > 0
    ensures BitAnd(x + Pow2(k) - 1, TWO64 - 1 - (Pow2(k) - 1)) == RoundUp(x, Pow2(k))
  {
    Pow2Positive(k);
    Pow2Of64();
    ComplementTakesRemainderOff(x + Pow2(k) - 1, k, 64);
  }

  /** The same on machine words, for the alignment the driver uses (sizeof (VOID *)). */
  lemma MaskRoundsUpByEight(v: bv64)
    ensures v & !(8 - 1) == v - v % 8
  {
    LowBitsAreRemainder(v);
  }

  lemma LowBitsAreRemainder(v: bv64)
    ensures v & 7 == v % 8
  {
  }

  function SizeToPages(size: nat): nat {
    size / EFI_PAGE_SIZE + if size % EFI_PAGE_SIZE != 0 then 1 else 0
  }

  datatype Config = Config(objectSize: nat, alignment: nat, objectCount: nat) {
    /** No UINTN computation of create overflows. */
    predicate Fits() {
      && alignment > 0 && objectCount > 0
      && objectSize + alignment <= TWO64
      && SlotSize() * objectCount + EFI_PAGE_SIZE <= TWO64
    }

    function SlotSize(): nat
      requires alignment > 0
    {
      RoundUp(objectSize, alignment)
    }

    function Pages(): nat
      requires alignment > 0
    {
      SizeToPages(SlotSize() * objectCount)
    }

    /** ObjectCount as recomputed from the arena. */
    function Slots(): nat
      requires alignment > 0 && SlotSize() > 0
    {
      Pages() * EFI_PAGE_SIZE / SlotSize()
    }
  }

  /** The slot size is a multiple of the alignment, the least one that holds the object. */
  lemma RoundUpBounds(x: nat, n: nat)
    requires n > 0
    ensures x <= RoundUp(x, n) < x + n && RoundUp(x, n) == (x + n - 1) / n * n
  {
  }

  lemma DivLower(a: nat, b: nat, d: nat)
    requires d > 0 && b * d <= a
    ensures b <= a / d
  {
    if a / d < b {
      MulMono(a / d + 1, b, d);
      assert false;
    }
  }

  /** Pages cover the size, and one page less does not. */
  lemma PagesBounds(size: nat)
    ensures size <= SizeToPages(size) * EFI_PAGE_SIZE < size + EFI_PAGE_SIZE
  {
  }

  lemma PagesBetween(size: nat, pages: nat)
    requires size <= pages * EFI_PAGE_SIZE < size + EFI_PAGE_SIZE
    ensures SizeToPages(size) == pages
  {
  }

  /** n slots of size z fit, one after the other, when n is the quotient. */
  lemma SlotsFit(z: nat, arena: nat, n: nat, i: nat)
    requires z > 0 && n == arena / z && i < n
    ensures i * z + z <= arena
  {
    MulMono(i + 1, n, z);
    assert n * z <= arena;
  }

  lemma SlotsApart(z: nat, i: nat, j: nat)
    requires i < j
    ensures i * z + z <= j * z
  {
    MulMono(i + 1, j, z);
  }

  /** The slots fill the arena up to less than a page, so their page count is the arena's. */
  lemma SamePages(z: nat, count: nat, pages: nat, n: nat)
    requires z > 0 && pages == SizeToPages(z * count) && n == pages * EFI_PAGE_SIZE / z
    ensures count <= n && SizeToPages(z * n) == pages
  {
    PagesBounds(z * count);
    DivLower(pages * EFI_PAGE_SIZE, count, z);
    MulMono(count, n, z);
    assert n * z <= pages * EFI_PAGE_SIZE;
    assert z * n == n * z && z * count == count * z;
    PagesBetween(z * n, pages);
  }

  /**
   * The recomputed count is at least the requested one, slots lie in the arena without
   * overlapping, and destroy's page count is create's.
   */
  lemma ArenaArithmetic(cfg: Config)
    requires cfg.alignment > 0 && cfg.SlotSize() > 0
    ensures cfg.Slots() >= cfg.objectCount
    ensures forall i: nat {:trigger i * cfg.SlotSize()} :: i < cfg.Slots() ==>
              i * cfg.SlotSize() + cfg.SlotSize() <= cfg.Pages() * EFI_PAGE_SIZE
    ensures forall i: nat, j: nat {:trigger i * cfg.SlotSize(), j * cfg.SlotSize()} :: i < j ==>
              i * cfg.SlotSize() + cfg.SlotSize() <= j * cfg.SlotSize()
    ensures SizeToPages(cfg.SlotSize() * cfg.Slots()) == cfg.Pages()
  {
    var z := cfg.SlotSize();
    SamePages(z, cfg.objectCount, cfg.Pages(), cfg.Slots());
    forall i: nat {:trigger i * z} | i < cfg.Slots() ensures i * z + z <= cfg.Pages() * EFI_PAGE_SIZE {
      SlotsFit(z, cfg.Pages() * EFI_PAGE_SIZE, cfg.Slots(), i);
    }
    forall i: nat, j: nat {:trigger i * z, j * z} | i < j ensures i * z + z <= j * z {
      SlotsApart(z, i, j);
    }
  }

  // ----- the ring -----

  /**
   * Links are slot numbers; number slots is the list head. A slot that is not on the ring is
   * linked to itself.
   */
  class Pool {
    const slots: nat
    const next: array<nat>
    const prev: array<nat>
    ghost var queue: seq<nat>

    /** The ring seen from the head: position |queue| and position -1 are the head. */
    ghost function At(k: int): nat
      reads this
    {
      if 0 <= k < |queue| then queue[k] else slots
    }

    ghost predicate InRange()
      reads this
    {
      forall i {:trigger queue[i]} :: 0 <= i < |queue| ==> queue[i] < slots
    }

    ghost predicate LinkOk(k: nat)
      requires next.Length == slots + 1 && prev.Length == slots + 1
      requires InRange()
      reads this, next, prev
    {
      next[At(k - 1)] == At(k) && prev[At(k)] == At(k - 1)
    }

    ghost predicate Shape()
      reads this
    {
      && next.Length == slots + 1 && prev.Length == slots + 1 && next != prev
      && InRange()
      && (forall i, j :: 0 <= i < j < |queue| ==> queue[i] != queue[j])
    }

    ghost predicate Valid()
      reads this, next, prev
    {
      && Shape()
      && (forall k {:trigger LinkOk(k)} :: 0 <= k <= |queue| ==> LinkOk(k))
      && (forall s {:trigger s in queue} :: 0 <= s < slots && s !in queue ==> next[s] == s && prev[s] == s)
    }

    /** ZeroMem of the arena does not matter: every slot is linked before it is used. */
    constructor (slots: nat)
      ensures Valid() && queue == [] && this.slots == slots && fresh(next) && fresh(prev)
    {
      this.slots := slots;
      next := new nat[slots + 1](i => i);
      prev := new nat[slots + 1](i => i);
      queue := [];
      new;
      assert LinkOk(0);
    }

    /** IsListEmpty: for a slot it says the slot is not free, for the head that no slot is. */
    method IsListEmpty(entry: nat) returns (empty: bool)
      requires Valid() && entry <= slots
      ensures entry < slots ==> (empty <==> entry !in queue)
      ensures entry == slots ==> (empty <==> queue == [])
    {
      empty := next[entry] == entry;
      if entry == slots {
        assert LinkOk(0) && LinkOk(|queue|);
      } else if entry in queue {
        ghost var k :| 0 <= k < |queue| && queue[k] == entry;
        assert LinkOk(k + 1);
      }
    }

    method InsertTailList(entry: nat)
      requires Valid() && entry < slots && entry !in queue
      modifies this`queue, next, prev
      ensures Valid() && queue == old(queue) + [entry]
    {
      assert LinkOk(|queue|);
      var last := prev[slots];
      next[entry], prev[entry] := slots, last;
      next[last] := entry;
      prev[slots] := entry;
      queue := queue + [entry];
      forall k: nat | k <= |queue| ensures LinkOk(k) {
        assert k < |queue| ==> old(LinkOk(k));
        assert k + 1 < |queue| ==> old(LinkOk(k + 1));
      }
    }

    /** GetFirstNode and RemoveEntryList on it, then InitializeListHead on the entry. */
    method TakeFirst() returns (entry: nat)
      requires Valid() && queue != []
      modifies this`queue, next, prev
      ensures Valid() && [entry] + queue == old(queue)
    {
      assert LinkOk(0) && LinkOk(1);
      entry := next[slots];
      next[prev[entry]] := next[entry];
      prev[next[entry]] := prev[entry];
      next[entry], prev[entry] := entry, entry;
      queue := queue[1..];
      forall k: nat | k <= |queue| ensures LinkOk(k) {
        assert old(LinkOk(k + 1)) && old(LinkOk(k));
      }
      forall s | 0 <= s < slots && s !in queue && s != entry ensures s !in old(queue) {
        assert old(queue) == [entry] + queue;
      }
    }

    /** ObjectAlloc; accepts says whether the OnAlloc callback succeeds. */
    method Alloc(accepts: bool) returns (r: Option<nat>)
      requires Valid()
      modifies this`queue, next, prev
      ensures Valid()
      ensures r.Some? <==> old(queue) != [] && accepts
      ensures if r.Some? then [r.value] + queue == old(queue) else queue == old(queue)
    {
      var empty := IsListEmpty(slots);
      if empty || !accepts {
        return None;
      }
      var entry := TakeFirst();
      return Some(entry);
    }

    /** ObjectFree; its assertion, that the slot is not free already, is the precondition. */
    method Free(slot: nat)
      requires Valid() && slot < slots && slot !in queue
      modifies this`queue, next, prev
      ensures Valid() && queue == old(queue) + [slot]
    {
      InsertTailList(slot);
    }
  }

  // ----- FIFO over whole histories -----

  datatype Request = Alloc | Free(slot: nat)

  /** The slots handed out by a history; an allocation on an empty queue hands out nothing. */
  function HandedOut(queue: seq<nat>, requests: seq<Request>): seq<nat>
    decreases |requests|
  {
    if requests == [] then []
    else match requests[0]
      case Alloc =>
        if queue == [] then HandedOut(queue, requests[1..])
        else [queue[0]] + HandedOut(queue[1..], requests[1..])
      case Free(s) => HandedOut(queue + [s], requests[1..])
  }

  function FreedSlots(requests: seq<Request>): seq<nat>
    decreases |requests|
  {
    if requests == [] then []
    else (if requests[0].Free? then [requests[0].slot] else []) + FreedSlots(requests[1..])
  }

  function QueueAfter(queue: seq<nat>, requests: seq<Request>): seq<nat>
    decreases |requests|
  {
    if requests == [] then queue
    else match requests[0]
      case Alloc => QueueAfter(if queue == [] then queue else queue[1..], requests[1..])
      case Free(s) => QueueAfter(queue + [s], requests[1..])
  }

  /**
   * First in, first out: what was handed out, followed by what is free now, is what was free at
   * first, followed by what was freed, in that order.
   */
  lemma {:induction false} PoolIsFifo(queue: seq<nat>, requests: seq<Request>)
    ensures HandedOut(queue, requests) + QueueAfter(queue, requests) == queue + FreedSlots(requests)
    decreases |requests|
  {
    if requests != [] {
      var rest := requests[1..];
      match requests[0]
      case Alloc =>
        if queue == [] {
          PoolIsFifo(queue, rest);
        } else {
          PoolIsFifo(queue[1..], rest);
          assert queue == [queue[0]] + queue[1..];
          assert HandedOut(queue, requests) + QueueAfter(queue, requests) ==
                 [queue[0]] + (HandedOut(queue[1..], rest) + QueueAfter(queue[1..], rest));
        }
      case Free(s) =>
        PoolIsFifo(queue + [s], rest);
        assert (queue + [s]) + FreedSlots(rest) == queue + FreedSlots(requests);
    }
  }

  /** Clients free only what they hold. */
  ghost predicate Honest(queue: seq<nat>, live: multiset<nat>, requests: seq<Request>)
    decreases |requests|
  {
    requests == [] ||
    match requests[0]
    case Alloc =>
      if queue == [] then Honest(queue, live, requests[1..])
      else Honest(queue[1..], live + multiset{queue[0]}, requests[1..])
    case Free(s) => s in live && Honest(queue + [s], live - multiset{s}, requests[1..])
  }

  function LiveAfter(queue: seq<nat>, live: multiset<nat>, requests: seq<Request>): multiset<nat>
    decreases |requests|
  {
    if requests == [] then live
    else match requests[0]
      case Alloc =>
        if queue == [] then LiveAfter(queue, live, requests[1..])
        else LiveAfter(queue[1..], live + multiset{queue[0]}, requests[1..])
      case Free(s) => LiveAfter(queue + [s], live - multiset{s}, requests[1..])
  }

  /** Each slot stays exactly as often free or live as it was, so a live slot is never free. */
  lemma {:induction false} SlotsConserved(queue: seq<nat>, live: multiset<nat>, requests: seq<Request>, s: nat)
    requires Honest(queue, live, requests)
    ensures multiset(QueueAfter(queue, requests))[s] + LiveAfter(queue, live, requests)[s] ==
            multiset(queue)[s] + live[s]
    decreases |requests|
  {
    if requests != [] {
      match requests[0]
      case Alloc =>
        if queue == [] {
          SlotsConserved(queue, live, requests[1..], s);
        } else {
          assert queue == [queue[0]] + queue[1..];
          SlotsConserved(queue[1..], live + multiset{queue[0]}, requests[1..], s);
        }
      case Free(slot) => SlotsConserved(queue + [slot], live - multiset{slot}, requests[1..], s);
    }
  }

  /** Starting with n free slots: the next slot handed out is never one that is live. */
  lemma LiveNeverHandedOut(n: nat, requests: seq<Request>)
    requires Honest(seq(n, i => i), multiset{}, requests)
    ensures var queue := QueueAfter(seq(n, i => i), requests);
            queue != [] ==> queue[0] !in LiveAfter(seq(n, i => i), multiset{}, requests)
    ensures |QueueAfter(seq(n, i => i), requests)| + |LiveAfter(seq(n, i => i), multiset{}, requests)| == n
  {
    var queue := QueueAfter(seq(n, i => i), requests);
    if queue != [] {
      SlotsConserved(seq(n, i => i), multiset{}, requests, queue[0]);
      FreshSlots(n, queue[0]);
      assert queue[0] in multiset(queue);
    }
    SizesConserved(seq(n, i => i), multiset{}, requests);
  }

  lemma {:induction false} SizesConserved(queue: seq<nat>, live: multiset<nat>, requests: seq<Request>)
    requires Honest(queue, live, requests)
    ensures |QueueAfter(queue, requests)| + |LiveAfter(queue, live, requests)| == |queue| + |live|
    decreases |requests|
  {
    if requests != [] {
      match requests[0]
      case Alloc =>
        if queue == [] {
          SizesConserved(queue, live, requests[1..]);
        } else {
          SizesConserved(queue[1..], live + multiset{queue[0]}, requests[1..]);
        }
      case Free(slot) => SizesConserved(queue + [slot], live - multiset{slot}, requests[1..]);
    }
  }

  // ----- create, roll back, destroy -----

  /** Calls of the OnCreate and OnDestroy callbacks. */
  datatype Callback = OnCreate(slot: nat) | OnDestroy(slot: nat)

  function Creates(n: nat): seq<Callback> { seq(n, i requires 0 <= i < n => OnCreate(i)) }

  /** From slot n - 1 down to slot 0. */
  function Rollback(n: nat): seq<Callback> { seq(n, i requires 0 <= i < n => OnDestroy(n - 1 - i)) }

  /** From slot 0 up: the order of ObjectAllocDestroy. */
  function Destroys(n: nat): seq<Callback> { seq(n, i requires 0 <= i < n => OnDestroy(i)) }

  datatype Status = Success | OutOfResources | InvalidParameter | CallbackError

  /** What the firmware allows: the context allocation, the arena allocation, and each OnCreate. */
  datatype World = World(poolOk: bool, pagesOk: bool, createOk: seq<bool>) {
    predicate Accepts(slot: nat) { slot < |createOk| && createOk[slot] }
  }

  /** The first slot below n whose OnCreate fails, or n. */
  function FirstFailure(w: World, n: nat): (k: nat)
    ensures k <= n && (k < n ==> !w.Accepts(k)) && forall i :: 0 <= i < k ==> w.Accepts(i)
    decreases n
  {
    if n == 0 then 0
    else
      var k := FirstFailure(w, n - 1);
      if k < n - 1 || !w.Accepts(n - 1) then k else n
  }

  /** What is still allocated when ObjectAllocCreate returns. */
  datatype Held = Held(context: bool, pages: nat)

  datatype Outcome = Outcome(status: Status, calls: seq<Callback>, held: Held)

  /** ObjectAllocCreate with a non-null OnCreate, as a function of what the firmware allows. */
  function CreateOutcome(cfg: Config, w: World): Outcome
    requires cfg.Fits()
  {
    if !w.poolOk then Outcome(OutOfResources, [], Held(false, 0))
    else if cfg.SlotSize() < HEADER_SIZE then Outcome(InvalidParameter, [], Held(true, 0))
    else if !w.pagesOk then Outcome(OutOfResources, [], Held(false, 0))
    else
      var n := cfg.Slots();
      var k := FirstFailure(w, n);
      if k < n then Outcome(CallbackError, Creates(k + 1) + Rollback(k), Held(false, 0))
      else Outcome(Success, Creates(n), Held(true, cfg.Pages()))
  }

  /** The creating loop. */
  method CreateSlots(w: World, n: nat) returns (ring: Pool, failed: bool, index: nat, calls: seq<Callback>)
    ensures index == FirstFailure(w, n) && (failed <==> index < n)
    ensures ring.Valid() && ring.slots == n && ring.queue == seq(index, i => i)
    ensures calls == if failed then Creates(index + 1) else Creates(index)
  {
    ring := new Pool(n);
    failed, index, calls := false, 0, [];
    while index < n && !failed
      invariant index <= n && ring.Valid() && ring.slots == n
      invariant fresh(ring) && fresh(ring.next) && fresh(ring.prev)
      invariant ring.queue == seq(index, i => i)
      invariant calls == if failed then Creates(index + 1) else Creates(index)
      invariant failed ==> index < n && !w.Accepts(index)
      invariant forall i :: 0 <= i < index ==> w.Accepts(i)
      decreases n - index, !failed
    {
      calls := calls + [OnCreate(index)];
      assert calls == Creates(index + 1);
      if w.Accepts(index) {
        ring.InsertTailList(index);
        index := index + 1;
      } else {
        failed := true;
      }
    }
  }

  /** The undoing loop: index is the first failed slot. */
  method UndoSlots(index: nat) returns (calls: seq<Callback>)
    ensures calls == Rollback(index)
  {
    calls := [];
    var rest := index;
    while rest != 0
      invariant 0 <= rest <= index && calls == Rollback(index)[..index - rest]
    {
      rest := rest - 1;
      calls := calls + [OnDestroy(rest)];
      assert Rollback(index)[..index - rest] == Rollback(index)[..index - rest - 1] + [OnDestroy(rest)];
    }
  }

  method Create(cfg: Config, w: World) returns (status: Status, pool: Pool?, calls: seq<Callback>, held: Held)
    requires cfg.Fits()
    ensures Outcome(status, calls, held) == CreateOutcome(cfg, w)
    ensures if status == Success
            then pool != null && pool.Valid() && pool.slots == cfg.Slots() && pool.queue == seq(cfg.Slots(), i => i)
            else pool == null
  {
    if !w.poolOk {
      return OutOfResources, null, [], Held(false, 0);
    }
    if cfg.SlotSize() < HEADER_SIZE {
      return InvalidParameter, null, [], Held(true, 0);
    }
    if !w.pagesOk {
      return OutOfResources, null, [], Held(false, 0);
    }
    var ring, failed, index, created := CreateSlots(w, cfg.Slots());
    if failed {
      var undone := UndoSlots(index);
      return CallbackError, null, created + undone, Held(false, 0);
    }
    return Success, ring, created, Held(true, cfg.Pages());
  }

  lemma {:induction false} RollbackOnce(k: nat, i: nat)
    ensures multiset(Rollback(k))[OnDestroy(i)] == if i < k then 1 else 0
    ensures multiset(Rollback(k))[OnCreate(i)] == 0
  {
    if k > 0 {
      RollbackOnce(k - 1, i);
      assert Rollback(k) == [OnDestroy(k - 1)] + Rollback(k - 1);
    }
  }

  lemma {:induction false} CreatesOnce(k: nat, i: nat)
    ensures multiset(Creates(k))[OnCreate(i)] == if i < k then 1 else 0
    ensures multiset(Creates(k))[OnDestroy(i)] == 0
  {
    if k > 0 {
      CreatesOnce(k - 1, i);
      assert Creates(k) == Creates(k - 1) + [OnCreate(k - 1)];
    }
  }

  /**
   * A failed OnCreate at slot k undoes exactly the slots before it: each destroyed once, the failed
   * one and later ones never, in the reverse of the creation order, and nothing stays allocated.
   */
  lemma RollbackIsExact(cfg: Config, w: World, i: nat)
    requires cfg.Fits() && CreateOutcome(cfg, w).status == CallbackError
    ensures var o := CreateOutcome(cfg, w);
            var k := FirstFailure(w, cfg.Slots());
            && multiset(o.calls)[OnCreate(i)] == (if i <= k then 1 else 0)
            && multiset(o.calls)[OnDestroy(i)] == (if i < k then 1 else 0)
            && (i < k ==> o.calls[k + 1 + i] == OnDestroy(k - 1 - i))
            && o.held == Held(false, 0)
  {
    var k := FirstFailure(w, cfg.Slots());
    CreatesOnce(k + 1, i);
    RollbackOnce(k, i);
  }

  /**
   * Create leaves nothing allocated on failure exactly when the slot is large enough for the
   * header or the context could not be allocated: the size check returns without freeing it.
   */
  lemma FailedCreateHoldsNothingIff(cfg: Config, w: World)
    requires cfg.Fits() && CreateOutcome(cfg, w).status != Success
    ensures CreateOutcome(cfg, w).held == Held(false, 0) <==> (!w.poolOk || cfg.SlotSize() >= HEADER_SIZE)
  {
  }

  /** Every outcome of create, from what the firmware allows and the configuration. */
  lemma CreateStatusIff(cfg: Config, w: World)
    requires cfg.Fits()
    ensures var status := CreateOutcome(cfg, w).status;
            && (status == OutOfResources <==> !w.poolOk || (cfg.SlotSize() >= HEADER_SIZE && !w.pagesOk))
            && (status == InvalidParameter <==> w.poolOk && cfg.SlotSize() < HEADER_SIZE)
            && (status == CallbackError <==> w.poolOk && cfg.SlotSize() >= HEADER_SIZE && w.pagesOk
                                             && exists k: nat :: k < cfg.Slots() && !w.Accepts(k))
            && (status != CallbackError && status != Success ==> CreateOutcome(cfg, w).calls == [])
  {
  }

  /**
   * A successful create has called OnCreate once for every slot, lowest first, and OnDestroy for none;
   * it holds the pages that destroy frees, and destroy then calls OnDestroy once for every slot,
   * lowest first, and nothing else.
   */
  lemma DestroyMatchesCreate(cfg: Config, w: World, i: nat)
    requires cfg.Fits() && CreateOutcome(cfg, w).status == Success
    ensures var o, n := CreateOutcome(cfg, w), cfg.Slots();
            && o.held == Held(true, SizeToPages(cfg.SlotSize() * n))
            && |o.calls| == n && multiset(o.calls)[OnCreate(i)] == (if i < n then 1 else 0)
            && |Destroys(n)| == n && multiset(Destroys(n))[OnDestroy(i)] == (if i < n then 1 else 0)
            && (i < n ==> o.calls[i] == OnCreate(i) && Destroys(n)[i] == OnDestroy(i))
  {
    CreatesOnce(cfg.Slots(), i);
    DestroysOnce(cfg.Slots(), i);
    ArenaArithmetic(cfg);
  }

  lemma {:induction false} DestroysOnce(k: nat, i: nat)
    ensures multiset(Destroys(k))[OnDestroy(i)] == if i < k then 1 else 0
  {
    if k > 0 {
      DestroysOnce(k - 1, i);
      assert Destroys(k) == Destroys(k - 1) + [OnDestroy(k - 1)];
    }
  }

  /** The input that shows it: 8-byte objects. */
  lemma SmallObjectsLeak()
    ensures var cfg := Config(8, 8, 1); cfg.Fits() && cfg.SlotSize() < HEADER_SIZE
  {
  }

  /**
   * ObjectAllocDestroy on a pool with nothing allocated, which is its assertion: OnDestroy once
   * per slot, and the pages freed are the pages create allocated.
   */
  method Destroy(cfg: Config, pool: Pool) returns (calls: seq<Callback>, freedPages: nat)
    requires cfg.Fits() && cfg.SlotSize() >= HEADER_SIZE && pool.Valid() && pool.slots == cfg.Slots()
    requires forall s :: 0 <= s < pool.slots ==> s in pool.queue
    ensures calls == Destroys(cfg.Slots()) && freedPages == cfg.Pages()
  {
    calls := [];
    for index := 0 to pool.slots
      invariant calls == Destroys(index)
    {
      var selfLinked := pool.IsListEmpty(index);
      assert !selfLinked;
      calls := calls + [OnDestroy(index)];
    }
    freedPages := SizeToPages(cfg.SlotSize() * cfg.Slots());
    ArenaArithmetic(cfg);
  }
}

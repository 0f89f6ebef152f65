/**
 * Crossing between native and emulated code: what the thunks do to the register file and
 * to the guest stack. Memory is a store of UINT64 cells named by their byte address.
 */
module Thunks {
  import opened Words

  const MAX_ARGS := 16
  const SYSV_X64_ABI_REDZONE := 128

  type Memory = map<Word, Word>
  type Args = a: seq<Word> | |a| == MAX_ARGS witness seq(MAX_ARGS, _ => 0)

  function Load(m: Memory, a: Word): Word { if a in m then m[a] else 0 }

  datatype Guest = Guest(regs: Regs, mem: Memory) {
    function Sp(): Word { regs[REG_SP] }

    /** The UINT64 the native thunks reach as StackArgs[k]. */
    function StackArg(k: nat): Word { Load(mem, Add64(Sp(), 8 * k)) }
  }

  function Push64(g: Guest, v: Word): Guest {
    var sp := Sub64(g.Sp(), 8);
    Guest(g.regs[REG_SP := sp], g.mem[sp := v])
  }

  function Pop64(g: Guest): (Word, Guest) {
    (Load(g.mem, g.Sp()), g.(regs := g.regs[REG_SP := Add64(g.Sp(), 8)]))
  }

  /** CpuStackPushRedZone. */
  function RedZone(r: Regs): Regs { r[REG_SP := Sub64(r[REG_SP], SYSV_X64_ABI_REDZONE)] }

  /** Pushes vs in order. */
  function PushAll(g: Guest, vs: seq<Word>): Guest {
    if vs == [] then g else Push64(PushAll(g, vs[..|vs| - 1]), vs[|vs| - 1])
  }

  function PopMany(g: Guest, n: nat): Guest {
    if n == 0 then g else Pop64(PopMany(g, n - 1)).1
  }

  /** How many arguments travel in registers. */
  function RegisterArgs(c: Cpu): nat { if c == X64 then 4 else 8 }

  function WriteArgRegs(c: Cpu, r: Regs, args: Args): Regs {
    if c == X64 then r[RCX := args[0]][RDX := args[1]][R8 := args[2]][R9 := args[3]]
    else r[X0 := args[0]][X0 + 1 := args[1]][X0 + 2 := args[2]][X0 + 3 := args[3]]
          [X0 + 4 := args[4]][X0 + 5 := args[5]][X0 + 6 := args[6]][X0 + 7 := args[7]]
  }

  function ReadArgRegs(c: Cpu, r: Regs): seq<Word> {
    if c == X64 then [r[RCX], r[RDX], r[R8], r[R9]] else r[X0..X0 + 8]
  }

  /** The stack arguments, last one first. */
  function Reversed(args: Args, from: nat): seq<Word>
    requires from <= MAX_ARGS
  {
    seq(MAX_ARGS - from, i requires 0 <= i < MAX_ARGS - from => args[MAX_ARGS - 1 - i])
  }

  /** Everything EmuThunkPre pushes, in pushing order. */
  function Pushed(c: Cpu, args: Args, magic: Word): seq<Word> {
    if c == X64 then Reversed(args, 4) + [0, 0, 0, 0] + [magic] else Reversed(args, 8)
  }

  /** EmuThunkPre of either guest; magic is the return address that leads back to native code. */
  function ThunkPre(c: Cpu, g: Guest, args: Args, magic: Word): Guest {
    var pushed := PushAll(g.(regs := WriteArgRegs(c, g.regs, args)), Pushed(c, args, magic));
    if c == X64 then pushed else pushed.(regs := pushed.regs[LR := magic])
  }

  /** EmuThunkPost pops what the callee left: on x64 the callee's return consumed the magic word. */
  function ThunkPost(c: Cpu, g: Guest): Guest { PopMany(g, if c == X64 then 16 else 8) }

  /** The tail of NativeThunkX64 and NativeThunkAArch64. */
  function NativeReturn(c: Cpu, g: Guest, value: Word): Guest {
    if c == X64 then Pop64(g.(regs := g.regs[RAX := value])).1
    else g.(regs := g.regs[X0 := value])
  }

  // ----- the register halves, used where memory does not matter -----

  function FrameBytes(c: Cpu): nat { if c == X64 then 8 * 17 else 8 * 8 }

  function PreRegs(c: Cpu, r: Regs, args: Args, magic: Word): Regs {
    var w := WriteArgRegs(c, r, args);
    var s := w[REG_SP := Sub64(w[REG_SP], FrameBytes(c))];
    if c == X64 then s else s[LR := magic]
  }

  function PostRegs(c: Cpu, r: Regs): Regs {
    r[REG_SP := Add64(r[REG_SP], if c == X64 then 8 * 16 else 8 * 8)]
  }

  function NativeReturnRegs(c: Cpu, r: Regs, value: Word): Regs {
    if c == X64 then r[RAX := value][REG_SP := Add64(r[REG_SP], 8)] else r[X0 := value]
  }

  lemma SubSub(a: Word, b: nat, c: nat)
    ensures Sub64(Sub64(a, b), c) == Sub64(a, b + c)
  {
  }

  lemma AddAdd(a: Word, b: nat, c: nat)
    ensures Add64(Add64(a, b), c) == Add64(a, b + c)
  {
  }

  /** Pushing moves the stack pointer by the bytes pushed and touches no other register. */
  lemma {:induction false} PushAllRegs(g: Guest, vs: seq<Word>)
    ensures PushAll(g, vs).regs == g.regs[REG_SP := Sub64(g.Sp(), 8 * |vs|)]
  {
    if vs == [] {
      assert Sub64(g.Sp(), 0) == g.Sp();
    } else {
      PushAllRegs(g, vs[..|vs| - 1]);
      SubSub(g.Sp(), 8 * (|vs| - 1), 8);
    }
  }

  lemma {:induction false} PopManyRegs(g: Guest, n: nat)
    ensures PopMany(g, n).regs == g.regs[REG_SP := Add64(g.Sp(), 8 * n)]
    ensures PopMany(g, n).mem == g.mem
  {
    if n == 0 {
      assert Add64(g.Sp(), 0) == g.Sp();
    } else {
      PopManyRegs(g, n - 1);
      AddAdd(g.Sp(), 8 * (n - 1), 8);
    }
  }

  /** The register files the run machine computes are those of the full thunks. */
  lemma RegisterHalves(c: Cpu, g: Guest, args: Args, magic: Word, value: Word)
    ensures ThunkPre(c, g, args, magic).regs == PreRegs(c, g.regs, args, magic)
    ensures ThunkPost(c, g).regs == PostRegs(c, g.regs)
    ensures NativeReturn(c, g, value).regs == NativeReturnRegs(c, g.regs, value)
  {
    PushAllRegs(g.(regs := WriteArgRegs(c, g.regs, args)), Pushed(c, args, magic));
    PopManyRegs(g, if c == X64 then 16 else 8);
  }

  // ----- what lies on the stack after pushing -----

  /** Cell j of a downward stack that started at sp. */
  function Cell(sp: Word, j: nat): int { sp - 8 * (j + 1) }

  /**
   * With room below the stack pointer, value j lands in cell j and every address outside
   * the pushed cells keeps its contents.
   */
  lemma {:induction false} PushAllMemory(g: Guest, vs: seq<Word>)
    requires 8 * |vs| <= g.Sp()
    ensures forall j :: 0 <= j < |vs| ==> Load(PushAll(g, vs).mem, Cell(g.Sp(), j)) == vs[j]
    ensures forall a: Word :: (a < g.Sp() - 8 * |vs| || a >= g.Sp() || (g.Sp() - a) % 8 != 0) ==>
              Load(PushAll(g, vs).mem, a) == Load(g.mem, a)
  {
    if vs != [] {
      var n := |vs| - 1;
      PushAllMemory(g, vs[..n]);
      NextCell(g, vs[..n], vs[n]);
      forall j | 0 <= j < |vs|
        ensures Load(PushAll(g, vs).mem, Cell(g.Sp(), j)) == vs[j]
      {
        if j < n {
          assert vs[..n][j] == vs[j];
        }
      }
    }
  }

  /** One more push writes the next cell. */
  lemma NextCell(g: Guest, vs: seq<Word>, v: Word)
    requires 8 * (|vs| + 1) <= g.Sp()
    ensures Cell(g.Sp(), |vs|) >= 0 && Push64(PushAll(g, vs), v).mem == PushAll(g, vs).mem[Cell(g.Sp(), |vs|) := v]
  {
    var g' := PushAll(g, vs);
    PushAllRegs(g, vs);
    assert g'.Sp() == Sub64(g.Sp(), 8 * |vs|);
    NoWrap(g.Sp(), 8 * |vs|);
    NoWrap(g'.Sp(), 8);
  }

  lemma NoWrap(a: Word, b: nat)
    requires b <= a
    ensures Sub64(a, b) == a - b
  {
  }

  /** The 16 arguments a native function receives from emulated code. */
  function NativeArgs(c: Cpu, g: Guest): seq<Word> {
    ReadArgRegs(c, g.regs) +
    if c == X64
    then seq(12, k requires 0 <= k < 12 => g.StackArg(k + 5))
    else seq(8, k requires 0 <= k < 8 => g.StackArg(k))
  }

  /** The x64 wrapper path spills the register arguments into the home zone first. */
  function SpillHomeZone(g: Guest): Guest {
    g.(mem := g.mem[Add64(g.Sp(), 8) := g.regs[RCX]][Add64(g.Sp(), 16) := g.regs[RDX]]
               [Add64(g.Sp(), 24) := g.regs[R8]][Add64(g.Sp(), 32) := g.regs[R9]])
  }

  /** The 16-word array a wrapper receives: on x64 it is the stack itself from StackArgs + 1 on. */
  function WrapperArgs(c: Cpu, g: Guest): seq<Word> {
    if c == X64
    then seq(MAX_ARGS, k requires 0 <= k < MAX_ARGS => SpillHomeZone(g).StackArg(k + 1))
    else NativeArgs(c, g)
  }

  lemma StackArgCell(sp: Word, n: nat, k: nat)
    requires 8 * n <= sp && k < n
    ensures Add64(Sub64(sp, 8 * n), 8 * k) == Cell(sp, n - 1 - k)
  {
  }

  /** After EmuThunkPre, StackArgs[k] is the k-th word pushed, counted from the last. */
  lemma StackArgAfterPre(c: Cpu, g: Guest, args: Args, magic: Word, k: nat)
    requires FrameBytes(c) <= g.Sp() && k < |Pushed(c, args, magic)|
    ensures ThunkPre(c, g, args, magic).StackArg(k) ==
            Pushed(c, args, magic)[|Pushed(c, args, magic)| - 1 - k]
  {
    var g1 := g.(regs := WriteArgRegs(c, g.regs, args));
    var vs := Pushed(c, args, magic);
    PushAllRegs(g1, vs);
    PushAllMemory(g1, vs);
    StackArgCell(g.Sp(), |vs|, k);
  }

  /**
   * Marshalling round trip: native code called with the state EmuThunkPre built receives the
   * very 16 values, for every stack pointer with room for the frame.
   */
  lemma MarshallingRoundTrip(c: Cpu, g: Guest, args: Args, magic: Word)
    requires FrameBytes(c) <= g.Sp()
    ensures NativeArgs(c, ThunkPre(c, g, args, magic)) == args
  {
    var first := RegisterArgs(c);
    RegisterArgumentsArrive(c, g, args, magic);
    forall i | first <= i < MAX_ARGS
      ensures NativeArgs(c, ThunkPre(c, g, args, magic))[i] == args[i]
    {
      StackArgumentArrives(c, g, args, magic, i);
    }
  }

  /** Where the code a run enters finds its return address, and the state in which it gets there. */
  function Returned(c: Cpu, g: Guest): (Word, Guest) { if c == X64 then Pop64(g) else (g.regs[LR], g) }

  /**
   * A callee entered with the state EmuThunkPre built returns to native code, on x64 by popping the
   * word on top of the stack; if it keeps the ABI that is a return in the sense of AbiReturn.
   */
  lemma CalleeReturnsToNative(c: Cpu, g: Guest, args: Args, magic: Word)
    ensures var entered := ThunkPre(c, g, args, magic);
            && Returned(c, entered).0 == magic
            && AbiReturn(c, entered.regs, Returned(c, entered).1.regs)
            && ThunkPost(c, Returned(c, entered).1).Sp() == g.Sp()
  {
    var entered := ThunkPre(c, g, args, magic);
    RegisterHalves(c, g, args, magic, 0);
    RegisterHalves(c, Returned(c, entered).1, args, magic, 0);
    PostRestoresStackPointer(c, g.regs, args, magic, Returned(c, entered).1.regs);
    if c == X64 {
      LastPushedOnTop(g.(regs := WriteArgRegs(c, g.regs, args)), Pushed(c, args, magic));
    }
  }

  lemma LastPushedOnTop(g: Guest, vs: seq<Word>)
    requires vs != []
    ensures Pop64(PushAll(g, vs)).0 == vs[|vs| - 1]
  {
  }

  lemma EntryRegistersX64(g: Guest, args: Args, magic: Word)
    requires FrameBytes(X64) <= g.Sp()
    ensures var e := ThunkPre(X64, g, args, magic);
            && e.Sp() == g.Sp() - FrameBytes(X64)
            && e.regs[RCX] == args[0] && e.regs[RDX] == args[1] && e.regs[R8] == args[2] && e.regs[R9] == args[3]
  {
    RegisterHalves(X64, g, args, magic, 0);
    NoWrap(g.Sp(), FrameBytes(X64));
  }

  lemma FrameTopX64(g: Guest, args: Args, magic: Word)
    requires FrameBytes(X64) <= g.Sp()
    ensures var e := ThunkPre(X64, g, args, magic); e.StackArg(0) == magic && forall k :: 1 <= k < 5 ==> e.StackArg(k) == 0
  {
    forall k: nat | k < 5 ensures ThunkPre(X64, g, args, magic).StackArg(k) == if k == 0 then magic else 0 {
      StackArgAfterPre(X64, g, args, magic, k);
    }
  }

  /**
   * The state at entry is the one the Microsoft x64 convention asks for: arguments in RCX, RDX, R8 and R9,
   * the return address on top of the stack, above it the home zone, above that the stack arguments.
   */
  lemma EntryKeepsConventionX64(g: Guest, args: Args, magic: Word)
    requires FrameBytes(X64) <= g.Sp()
    ensures var e := ThunkPre(X64, g, args, magic);
            && e.Sp() == g.Sp() - FrameBytes(X64)
            && e.regs[RCX] == args[0] && e.regs[RDX] == args[1] && e.regs[R8] == args[2] && e.regs[R9] == args[3]
            && e.StackArg(0) == magic
            && (forall k :: 1 <= k < 5 ==> e.StackArg(k) == 0)
            && (forall k :: 4 <= k < MAX_ARGS ==> e.StackArg(k + 1) == args[k])
  {
    EntryRegistersX64(g, args, magic);
    FrameTopX64(g, args, magic);
    var e := ThunkPre(X64, g, args, magic);
    forall k | 4 <= k < MAX_ARGS ensures e.StackArg(k + 1) == args[k] {
      StackArgumentArrives(X64, g, args, magic, k);
    }
  }

  /** The same for AAPCS64: arguments in X0 to X7, the return address in LR, stack arguments from the top. */
  lemma EntryKeepsConventionAArch64(g: Guest, args: Args, magic: Word)
    requires FrameBytes(AArch64) <= g.Sp()
    ensures var e := ThunkPre(AArch64, g, args, magic);
            && e.Sp() == g.Sp() - FrameBytes(AArch64)
            && (forall k :: 0 <= k < 8 ==> e.regs[X0 + k] == args[k])
            && e.regs[LR] == magic
            && (forall k :: 8 <= k < MAX_ARGS ==> e.StackArg(k - 8) == args[k])
  {
    RegisterHalves(AArch64, g, args, magic, 0);
    NoWrap(g.Sp(), FrameBytes(AArch64));
    var e := ThunkPre(AArch64, g, args, magic);
    forall k | 8 <= k < MAX_ARGS ensures e.StackArg(k - 8) == args[k] {
      StackArgumentArrives(AArch64, g, args, magic, k);
    }
  }

  /**
   * Entered guest code, starting from g with room on its stack: it finds its arguments and its return
   * address, and nothing at or above the stack pointer of g has changed.
   */
  ghost predicate Delivered(c: Cpu, g: Guest, entered: Guest, args: Args, magic: Word) {
    && NativeArgs(c, entered) == args
    && Returned(c, entered).0 == magic
    && forall a: Word :: a >= g.Sp() ==> Load(entered.mem, a) == Load(g.mem, a)
  }

  lemma PreDelivers(c: Cpu, g: Guest, args: Args, magic: Word)
    requires FrameBytes(c) <= g.Sp()
    ensures Delivered(c, g, ThunkPre(c, g, args, magic), args, magic)
  {
    MarshallingRoundTrip(c, g, args, magic);
    CalleeReturnsToNative(c, g, args, magic);
    PushAllMemory(g.(regs := WriteArgRegs(c, g.regs, args)), Pushed(c, args, magic));
  }

  lemma RegisterArgumentsArrive(c: Cpu, g: Guest, args: Args, magic: Word)
    ensures ReadArgRegs(c, ThunkPre(c, g, args, magic).regs) == args[..RegisterArgs(c)]
  {
    RegisterHalves(c, g, args, magic, 0);
  }

  lemma StackArgumentArrives(c: Cpu, g: Guest, args: Args, magic: Word, i: nat)
    requires FrameBytes(c) <= g.Sp() && RegisterArgs(c) <= i < MAX_ARGS
    ensures ThunkPre(c, g, args, magic).StackArg(if c == X64 then i + 1 else i - 8) == args[i]
  {
    StackArgAfterPre(c, g, args, magic, if c == X64 then i + 1 else i - 8);
  }

  /** Both call paths deliver the same arguments, whatever state the emulated code left. */
  lemma WrapperAndNativeAgree(c: Cpu, g: Guest)
    ensures WrapperArgs(c, g) == NativeArgs(c, g)
  {
    if c == X64 {
      forall k: nat | k < MAX_ARGS
        ensures WrapperArgs(c, g)[k] == NativeArgs(c, g)[k]
      {
        StackCellsDistinct(g.Sp(), k + 1);
        var h := SpillHomeZone(g);
        if k < 4 {
          assert h.StackArg(k + 1) == ReadArgRegs(c, g.regs)[k];
        } else {
          assert h.StackArg(k + 1) == g.StackArg(k + 1);
          assert NativeArgs(c, g)[k] == g.StackArg(k - 4 + 5);
        }
      }
    }
  }

  /** Cells 1 to 4 above a stack pointer differ from each other and from every cell up to 16. */
  lemma StackCellsDistinct(sp: Word, k: nat)
    requires 1 <= k <= 16
    ensures k != 1 ==> Add64(sp, 8 * k) != Add64(sp, 8)
    ensures k != 2 ==> Add64(sp, 8 * k) != Add64(sp, 16)
    ensures k != 3 ==> Add64(sp, 8 * k) != Add64(sp, 24)
    ensures k != 4 ==> Add64(sp, 8 * k) != Add64(sp, 32)
  {
  }

  /** The x64 wrapper path writes the four home-zone words and nothing else. */
  lemma WrapperWritesOnlyHomeZone(g: Guest, a: Word)
    ensures Load(SpillHomeZone(g).mem, a) != Load(g.mem, a) ==>
              a in {Add64(g.Sp(), 8), Add64(g.Sp(), 16), Add64(g.Sp(), 24), Add64(g.Sp(), 32)}
    ensures SpillHomeZone(g).regs == g.regs
  {
  }

  /**
   * A native call looks to emulated code like a call that returned: on x64 the pushed return
   * address is where execution goes on, the stack pointer is the one before the call, and on both
   * guests only the return value register has changed.
   */
  lemma NativeCallReturns(c: Cpu, g: Guest, ret: Word, value: Word)
    ensures c == X64 ==> NativeReturn(c, Push64(g, ret), value).regs == g.regs[RAX := value]
    ensures c == X64 ==> Push64(g, ret).StackArg(0) == ret
    ensures c == AArch64 ==> NativeReturn(c, g, value).regs == g.regs[X0 := value]
    ensures NativeReturn(c, g, value).regs[ReturnReg(c)] == value && NativeReturn(c, g, value).mem == g.mem
  {
    AddUndoesSub(g.Sp(), 8);
    assert Add64(Sub64(g.Sp(), 8), 0) == Sub64(g.Sp(), 8);
    if c == X64 {
      var r := NativeReturn(c, Push64(g, ret), value).regs;
      assert forall i :: 0 <= i < NREGS ==> r[i] == g.regs[RAX := value][i];
    }
  }

  // ----- stack isolation -----

  /** How the stack pointer of a callee that follows the ABI relates to the one it started with. */
  predicate AbiReturn(c: Cpu, start: Regs, end: Regs) {
    end[REG_SP] == if c == X64 then Add64(start[REG_SP], 8) else start[REG_SP]
  }

  /** The post-thunk hands back the stack pointer the pre-thunk found. */
  lemma PostRestoresStackPointer(c: Cpu, r: Regs, args: Args, magic: Word, end: Regs)
    requires AbiReturn(c, PreRegs(c, r, args, magic), end)
    ensures PostRegs(c, end)[REG_SP] == r[REG_SP]
  {
    AddUndoesSub(r[REG_SP], FrameBytes(c));
    if c == X64 {
      AddAdd(PreRegs(c, r, args, magic)[REG_SP], 8, 128);
    }
  }

  /**
   * A nested run pushes strictly below the suspended context's red zone: every cell it
   * changes lies in the frame directly under sp - 128.
   */
  lemma NestedRunStaysBelowRedZone(c: Cpu, g: Guest, args: Args, magic: Word, a: Word)
    requires SYSV_X64_ABI_REDZONE + FrameBytes(c) <= g.Sp()
    requires Load(ThunkPre(c, g.(regs := RedZone(g.regs)), args, magic).mem, a) != Load(g.mem, a)
    ensures g.Sp() - SYSV_X64_ABI_REDZONE - FrameBytes(c) <= a < g.Sp() - SYSV_X64_ABI_REDZONE
  {
    var r := RedZone(g.regs);
    PushAllMemory(Guest(WriteArgRegs(c, r, args), g.mem), Pushed(c, args, magic));
  }
}

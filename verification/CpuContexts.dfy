/** One guest CPU: its engine's register file, its stack operations and its thunks. */
module CpuContexts {
  import opened Words
  import opened Thunks

  /** The memory native and emulated code share. */
  class GuestMemory {
    var cells: Memory

    constructor (cells: Memory)
      ensures this.cells == cells
    {
      this.cells := cells;
    }
  }

  /**
   * CpuContext. The engine is its register file; RunContextAlloc is the pool's free queue,
   * which is what the object pool refines.
   */
  class CpuContext {
    const cpu: Cpu
    const initialState: Regs
    var regs: Regs
    var contexts: int
    var freeSlots: seq<nat>

    constructor (cpu: Cpu, initialState: Regs, slots: nat)
      ensures this.cpu == cpu && this.initialState == initialState && regs == initialState
      ensures contexts == 0 && freeSlots == seq(slots, i => i)
    {
      this.cpu, this.initialState := cpu, initialState;
      regs, contexts, freeSlots := initialState, 0, seq(slots, i => i);
    }

    ghost function View(memory: GuestMemory): Guest
      reads this, memory
    {
      Guest(regs, memory.cells)
    }

    method StackPushRedZone()
      modifies this`regs
      ensures regs == RedZone(old(regs))
    {
      regs := regs[REG_SP := Sub64(regs[REG_SP], SYSV_X64_ABI_REDZONE)];
    }

    method StackPush64(memory: GuestMemory, v: Word)
      modifies this`regs, memory
      ensures View(memory) == Push64(old(View(memory)), v)
    {
      var rsp := Sub64(regs[REG_SP], 8);
      regs := regs[REG_SP := rsp];
      memory.cells := memory.cells[rsp := v];
    }

    method StackPop64(memory: GuestMemory) returns (v: Word)
      modifies this`regs
      ensures (v, View(memory)) == Pop64(old(View(memory)))
    {
      var rsp := regs[REG_SP];
      v := Load(memory.cells, rsp);
      regs := regs[REG_SP := Add64(rsp, 8)];
    }

    method PopWords(memory: GuestMemory, n: nat)
      modifies this`regs
      ensures View(memory) == PopMany(old(View(memory)), n)
    {
      for index := 0 to n
        invariant View(memory) == PopMany(old(View(memory)), index)
      {
        var _ := StackPop64(memory);
      }
    }

    /** Pushes the stack arguments in reverse order. */
    method PushArguments(memory: GuestMemory, args: Args, from: nat)
      requires from <= MAX_ARGS
      modifies this`regs, memory
      ensures View(memory) == PushAll(old(View(memory)), Reversed(args, from))
    {
      ghost var g := View(memory);
      for index := 0 to MAX_ARGS - from
        invariant View(memory) == PushAll(g, Reversed(args, from)[..index])
      {
        StackPush64(memory, args[MAX_ARGS - 1 - index]);
        PushOneMore(g, Reversed(args, from), index);
      }
      assert Reversed(args, from)[..MAX_ARGS - from] == Reversed(args, from);
    }

    /** The x64 frame: stack arguments, home zone, return address. */
    method PushX64Frame(memory: GuestMemory, args: Args, magic: Word)
      modifies this`regs, memory
      ensures View(memory) == PushAll(old(View(memory)), Pushed(X64, args, magic))
    {
      ghost var g := View(memory);
      ghost var stacked := Reversed(args, 4);
      ghost var home := [0, 0, 0, 0];
      PushArguments(memory, args, 4);
      assert stacked + home[..0] == stacked;
      for index := 0 to 4
        invariant View(memory) == PushAll(g, stacked + home[..index])
      {
        StackPush64(memory, 0);
        PushOneMore(g, stacked + home, |stacked| + index);
        assert (stacked + home)[..|stacked| + index] == stacked + home[..index];
        assert (stacked + home)[..|stacked| + index + 1] == stacked + home[..index + 1];
      }
      StackPush64(memory, magic);
      assert home[..4] == home;
      assert (stacked + home + [magic])[..|stacked| + 4] == stacked + home;
    }

    /** CpuX64EmuThunkPre and CpuAArch64EmuThunkPre. */
    method EmuThunkPre(memory: GuestMemory, args: Args, magic: Word)
      modifies this`regs, memory
      ensures View(memory) == ThunkPre(cpu, old(View(memory)), args, magic)
      ensures regs == PreRegs(cpu, old(regs), args, magic)
    {
      RegisterHalves(cpu, View(memory), args, magic, 0);
      regs := WriteArgRegs(cpu, regs, args);
      if cpu == X64 {
        PushX64Frame(memory, args, magic);
      } else {
        PushArguments(memory, args, 8);
        regs := regs[LR := magic];
      }
    }

    /** CpuX64EmuThunkPost and CpuAArch64EmuThunkPost. */
    method EmuThunkPost(memory: GuestMemory)
      modifies this`regs
      ensures View(memory) == ThunkPost(cpu, old(View(memory)))
      ensures regs == PostRegs(cpu, old(regs))
    {
      RegisterHalves(cpu, View(memory), seq(MAX_ARGS, _ => 0), 0, 0);
      if cpu == X64 {
        PopWords(memory, 16);
      } else {
        PopWords(memory, 8);
      }
    }

    /** What NativeThunkX64 and NativeThunkAArch64 hand to the native function. */
    method FetchNativeArgs(memory: GuestMemory) returns (args: seq<Word>)
      ensures args == NativeArgs(cpu, View(memory))
    {
      var rsp := regs[REG_SP];
      args := ReadArgRegs(cpu, regs);
      var first := if cpu == X64 then 5 else 0;
      var count := if cpu == X64 then 12 else 8;
      ghost var all := NativeArgs(cpu, View(memory));
      for k := 0 to count
        invariant args == all[..RegisterArgs(cpu) + k]
      {
        args := args + [Load(memory.cells, Add64(rsp, 8 * (k + first)))];
      }
    }

    /** The wrapper path of NativeThunkX64 spills the home zone and passes the stack itself. */
    method SpillHomeZone(memory: GuestMemory)
      requires cpu == X64
      modifies memory
      ensures View(memory) == Thunks.SpillHomeZone(old(View(memory)))
    {
      var rsp := regs[REG_SP];
      memory.cells := memory.cells[Add64(rsp, 8) := regs[RCX]];
      memory.cells := memory.cells[Add64(rsp, 16) := regs[RDX]];
      memory.cells := memory.cells[Add64(rsp, 24) := regs[R8]];
      memory.cells := memory.cells[Add64(rsp, 32) := regs[R9]];
    }

    /** The end of both native thunks: the value register, and on x64 the popped return address. */
    method FinishNativeThunk(memory: GuestMemory, value: Word) returns (pc: Word)
      modifies this`regs
      ensures View(memory) == NativeReturn(cpu, old(View(memory)), value)
      ensures pc == if cpu == X64 then old(View(memory)).StackArg(0) else old(regs)[LR]
    {
      if cpu == X64 {
        regs := regs[RAX := value];
        pc := StackPop64(memory);
      } else {
        regs := regs[X0 := value];
        pc := regs[LR];
      }
    }
  }

  lemma PushOneMore(g: Guest, vs: seq<Word>, k: nat)
    requires k < |vs|
    ensures PushAll(g, vs[..k + 1]) == Push64(PushAll(g, vs[..k]), vs[k])
  {
    assert vs[..k + 1][..k] == vs[..k];
  }
}

/**
 * Critical sections and the hooked interrupt services of EFI_CPU_ARCH_PROTOCOL.
 * The driver owns the real interrupt flag; everyone else sees an apparent one.
 */
module Interrupts {

  /** hw: the hardware flag; depth: gIgnoreInterruptManipulation; apparent: gApparentInterruptState. */
  datatype Irq = Irq(hw: bool, depth: nat, apparent: bool)

  /**
   * CriticalBegin. The counter is incremented before it is tested for being positive,
   * so the apparent state is overwritten by every begin, nested ones included.
   */
  function Begin(s: Irq): Irq { Irq(false, s.depth + 1, s.hw) }

  /** CriticalEnd, whose assertion is the precondition. */
  function End(s: Irq): Irq
    requires s.depth > 0
  {
    if s.depth == 1 then Irq(s.apparent, 0, s.apparent) else s.(depth := s.depth - 1)
  }

  /** EnableInterrupt (value true) and DisableInterrupt (value false) as hooked. */
  function SetByClient(s: Irq, value: bool): Irq {
    if s.depth == 0 then Irq(value, 0, value) else s.(apparent := value)
  }

  /** What GetInterruptState stores through a non-null pointer. */
  function Observed(s: Irq): bool { if s.depth == 0 then s.hw else s.apparent }

  class InterruptControl {
    var hw: bool
    var depth: nat
    var apparent: bool

    ghost function View(): Irq
      reads this
    {
      Irq(hw, depth, apparent)
    }

    /** EfiHooksInit starts from whatever the hardware flag is. */
    constructor (enabled: bool)
      ensures View() == Irq(enabled, 0, enabled)
    {
      hw, depth, apparent := enabled, 0, enabled;
    }

    method CriticalBegin()
      modifies this
      ensures View() == Begin(old(View()))
    {
      var interruptState := hw;
      hw := false;
      depth := depth + 1;
      if depth > 0 {
        apparent := interruptState;
      }
    }

    method CriticalEnd()
      requires depth != 0
      modifies this
      ensures View() == End(old(View()))
    {
      depth := depth - 1;
      if depth == 0 {
        hw := apparent;
      }
    }

    method EnableInterrupt()
      modifies this
      ensures View() == SetByClient(old(View()), true)
    {
      apparent := true;
      if depth == 0 {
        hw := true;
      }
    }

    method DisableInterrupt()
      modifies this
      ensures View() == SetByClient(old(View()), false)
    {
      apparent := false;
      if depth == 0 {
        hw := false;
      }
    }

    /** A null State pointer is the only error. */
    method GetInterruptState(statePointerIsNull: bool) returns (ok: bool, state: bool)
      ensures ok == !statePointerIsNull
      ensures ok ==> state == Observed(View())
    {
      state := false;
      if statePointerIsNull {
        return false, state;
      }
      if depth == 0 {
        return true, hw;
      }
      return true, apparent;
    }
  }

  // ----- refinement: clients see one plain flag -----

  datatype Op = CriticalBegin | CriticalEnd | Client(value: bool) | Get

  /** A run without nested sections and without a stray end. */
  predicate Unnested(depth: nat, ops: seq<Op>)
    decreases |ops|
  {
    ops == [] ||
    match ops[0]
    case CriticalBegin => depth == 0 && Unnested(1, ops[1..])
    case CriticalEnd => depth == 1 && Unnested(0, ops[1..])
    case _ => Unnested(depth, ops[1..])
  }

  function Apply(s: Irq, op: Op): Irq
    requires op == CriticalEnd ==> s.depth > 0
  {
    match op
    case CriticalBegin => Begin(s)
    case CriticalEnd => End(s)
    case Client(v) => SetByClient(s, v)
    case Get => s
  }

  /** The answers clients get, in order. */
  function Answers(s: Irq, ops: seq<Op>): seq<bool>
    requires Unnested(s.depth, ops)
    decreases |ops|
  {
    if ops == [] then []
    else (if ops[0] == Get then [Observed(s)] else []) + Answers(Apply(s, ops[0]), ops[1..])
  }

  /** The answers of a machine that has no critical sections, only a flag. */
  function FlagAnswers(flag: bool, ops: seq<Op>): seq<bool>
    decreases |ops|
  {
    if ops == [] then []
    else (if ops[0] == Get then [flag] else []) +
         FlagAnswers(if ops[0].Client? then ops[0].value else flag, ops[1..])
  }

  function After(s: Irq, ops: seq<Op>): Irq
    requires Unnested(s.depth, ops)
    decreases |ops|
  {
    if ops == [] then s else After(Apply(s, ops[0]), ops[1..])
  }

  function FlagAfter(flag: bool, ops: seq<Op>): bool
    decreases |ops|
  {
    if ops == [] then flag else FlagAfter(if ops[0].Client? then ops[0].value else flag, ops[1..])
  }

  /** Real interrupts are off inside a section. */
  predicate Sound(s: Irq) { s.depth <= 1 && (s.depth == 1 ==> !s.hw) }

  /**
   * Over every run of un-nested sections and client calls, clients cannot tell the driver's
   * machine from a plain flag, sections run with real interrupts off, and outside a section
   * the hardware flag is the plain flag.
   */
  lemma {:induction false} VirtualisationRefinesFlag(s: Irq, ops: seq<Op>)
    requires Sound(s) && Unnested(s.depth, ops)
    ensures Answers(s, ops) == FlagAnswers(Observed(s), ops)
    ensures Sound(After(s, ops))
    ensures Observed(After(s, ops)) == FlagAfter(Observed(s), ops)
    ensures After(s, ops).depth == 0 ==> After(s, ops).hw == FlagAfter(Observed(s), ops)
    decreases |ops|
  {
    if ops != [] {
      VirtualisationRefinesFlag(Apply(s, ops[0]), ops[1..]);
    }
  }

  /**
   * Nesting is where the promise stops: a begin inside a section keeps the flag clients see
   * exactly when that flag was already off.
   */
  lemma NestedBeginKeepsFlagIff(s: Irq)
    requires Sound(s) && s.depth == 1
    ensures Observed(Begin(s)) == Observed(s) <==> !Observed(s)
  {
  }

  /** The input that shows it: enabled interrupts, two begins, two ends, and they stay disabled. */
  lemma NestedSectionLosesEnabled()
    ensures var s := Irq(true, 0, true);
            Observed(s) && !Observed(End(End(Begin(Begin(s)))))
  {
  }
}

/** The adaptive timeout: how often the block callback stops the JIT so that events can fire. */
module Timeout {
  import opened Words

  const UC_EMU_EXIT_PERIOD_TB_MAX := 0x100000
  const UC_EMU_EXIT_PERIOD_TB_INITIAL := 0x1000
  const UC_EMU_EXIT_PERIOD_TB_MIN := 0x100

  /** The thirteen periods reachable by halving and doubling between the bounds. */
  predicate PeriodOk(p: Word) {
    p in {0x100, 0x200, 0x400, 0x800, 0x1000, 0x2000, 0x4000, 0x8000,
          0x10000, 0x20000, 0x40000, 0x80000, 0x100000}
  }

  /** (TbCount & (ExitPeriodTbs - 1)) == 0 for a power of two. */
  predicate Due(tbCount: Word, period: Word)
    requires period > 0
  {
    tbCount % period == 0
  }

  /** On machine words: for a period the mask test is divisibility. */
  lemma MaskIsDivisibility(t: bv64)
    ensures t & (0x100 - 1) == t % 0x100 && t & (0x200 - 1) == t % 0x200 && t & (0x400 - 1) == t % 0x400
    ensures t & (0x800 - 1) == t % 0x800 && t & (0x1000 - 1) == t % 0x1000 && t & (0x2000 - 1) == t % 0x2000
    ensures t & (0x4000 - 1) == t % 0x4000 && t & (0x8000 - 1) == t % 0x8000 && t & (0x10000 - 1) == t % 0x10000
    ensures t & (0x20000 - 1) == t % 0x20000 && t & (0x40000 - 1) == t % 0x40000
    ensures t & (0x80000 - 1) == t % 0x80000 && t & (0x100000 - 1) == t % 0x100000
  {
  }

  /** The counter fields of CpuContext. */
  class TimeoutControl {
    var tbCount: Word
    var exitPeriodTbs: Word
    var stoppedOnTimeout: bool

    constructor ()
      ensures tbCount == 0 && exitPeriodTbs == UC_EMU_EXIT_PERIOD_TB_INITIAL && !stoppedOnTimeout
      ensures PeriodOk(exitPeriodTbs)
    {
      tbCount, exitPeriodTbs, stoppedOnTimeout := 0, UC_EMU_EXIT_PERIOD_TB_INITIAL, false;
    }

    /** CpuTimeoutCb; the result says that uc_emu_stop is called. */
    method TimeoutCb() returns (stop: bool)
      requires PeriodOk(exitPeriodTbs)
      modifies this`tbCount, this`stoppedOnTimeout
      ensures tbCount == Add64(old(tbCount), 1)
      ensures stop <==> Due(tbCount, exitPeriodTbs)
      ensures stoppedOnTimeout == (stop || old(stoppedOnTimeout))
    {
      tbCount := Add64(tbCount, 1);
      stop := tbCount % exitPeriodTbs == 0;
      if stop {
        stoppedOnTimeout := true;
      }
    }

    /** The adaptation after uc_emu_start: halve when late, double when early, within the bounds. */
    method Recalibrate(ticks: Word, timeoutAbsTicks: Word)
      requires PeriodOk(exitPeriodTbs)
      modifies this`exitPeriodTbs, this`stoppedOnTimeout
      ensures PeriodOk(exitPeriodTbs) && !stoppedOnTimeout
      ensures exitPeriodTbs ==
              if old(stoppedOnTimeout) then Adapted(old(exitPeriodTbs), ticks, timeoutAbsTicks) else old(exitPeriodTbs)
    {
      if stoppedOnTimeout {
        stoppedOnTimeout := false;
        if ticks > timeoutAbsTicks {
          if exitPeriodTbs > UC_EMU_EXIT_PERIOD_TB_MIN {
            exitPeriodTbs := exitPeriodTbs / 2;
          }
        } else if ticks < timeoutAbsTicks {
          if exitPeriodTbs < UC_EMU_EXIT_PERIOD_TB_MAX {
            exitPeriodTbs := exitPeriodTbs * 2;
          }
        }
      }
    }
  }

  function Adapted(period: Word, ticks: Word, deadline: Word): (p: Word)
    requires PeriodOk(period)
    ensures PeriodOk(p)
    ensures ticks > deadline ==> if period > UC_EMU_EXIT_PERIOD_TB_MIN then 2 * p == period else p == period
    ensures ticks < deadline ==> if period < UC_EMU_EXIT_PERIOD_TB_MAX then p == 2 * period else p == period
    ensures ticks == deadline ==> p == period
  {
    if ticks > deadline then (if period > UC_EMU_EXIT_PERIOD_TB_MIN then period / 2 else period)
    else if ticks < deadline then (if period < UC_EMU_EXIT_PERIOD_TB_MAX then period * 2 else period)
    else period
  }

  /** Over every history of calibrations the period stays a power of two within the bounds. */
  function Periods(period: Word, history: seq<(Word, Word)>): Word
    requires PeriodOk(period)
    decreases |history|
  {
    if history == [] then period else Periods(Adapted(period, history[0].0, history[0].1), history[1..])
  }

  lemma {:induction false} PeriodAlwaysOk(period: Word, history: seq<(Word, Word)>)
    requires PeriodOk(period)
    ensures PeriodOk(Periods(period, history))
    ensures UC_EMU_EXIT_PERIOD_TB_MIN <= Periods(period, history) <= UC_EMU_EXIT_PERIOD_TB_MAX
    decreases |history|
  {
    if history != [] {
      PeriodAlwaysOk(Adapted(period, history[0].0, history[0].1), history[1..]);
    }
  }

  lemma Regroup(q: nat, p: nat, m: nat, k: nat)
    ensures q * (p * m) + k * p == (q * m + k) * p
  {
    Distribute(q * m, k, p);
    assert q * (p * m) == q * (m * p) == q * m * p;
  }

  lemma ModOfMultiple(x: nat, p: nat, m: nat)
    requires p > 0 && m > 0 && p * m > 0
    ensures x % (p * m) % p == x % p
  {
    var n := p * m;
    var q, r := x / n, x % n;
    var k, z := r / p, r % p;
    Regroup(q, p, m, k);
    DivModOf(x, q * m + k, z, p);
  }

  /** Every period divides 2^64. */
  lemma PeriodDivides(p: Word) returns (m: nat)
    requires PeriodOk(p)
    ensures m > 0 && p * m == TWO64
  {
    m := TWO64 / p;
  }

  /** Wrapping at 2^64 does not disturb divisibility by a period. */
  lemma WrapKeepsDue(t: Word, k: nat, p: Word)
    requires PeriodOk(p)
    ensures Due(Add64(t, k), p) <==> (t + k) % p == 0
  {
    var m := PeriodDivides(p);
    ModOfMultiple(t + k, p, m);
  }

  /**
   * From any 64-bit count, wrap-around included, the first stop comes after exactly
   * p - t % p callbacks, hence within one period.
   */
  lemma StopsWithinPeriod(t: Word, p: Word)
    requires PeriodOk(p)
    ensures var k := p - t % p;
            && 1 <= k <= p && Due(Add64(t, k), p)
            && forall j: nat {:trigger Add64(t, j)} :: 1 <= j < k ==> !Due(Add64(t, j), p)
  {
    var k := p - t % p;
    WrapKeepsDue(t, k, p);
    NextMultiple(t, k, p);
    forall j: nat {:trigger Add64(t, j)} | 1 <= j < k ensures !Due(Add64(t, j), p) {
      WrapKeepsDue(t, j, p);
      NextMultiple(t, j, p);
    }
  }

  lemma NextMultiple(t: nat, j: nat, p: nat)
    requires p > 0 && 1 <= j <= p - t % p
    ensures (t + j) % p == 0 <==> j == p - t % p
  {
    var q := t / p;
    assert t == q * p + t % p;
    if j == p - t % p {
      assert t + j == (q + 1) * p;
      DivModOf(t + j, q + 1, 0, p);
    } else {
      DivModOf(t + j, q, t % p + j, p);
    }
  }
}

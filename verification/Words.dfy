/** Machine words, guest CPUs and register files: the vocabulary every other module shares. */
module Words {

  datatype Option<+T> = None | Some(value: T)

  const TWO64: int := 0x1_0000_0000_0000_0000

  /** UINT64. */
  type Word = w: int | 0 <= w < TWO64

  /** UINT64 addition and subtraction wrap around. */
  function Add64(a: Word, b: nat): Word { (a + b) % TWO64 }

  function Sub64(a: Word, b: nat): Word { (a - b) % TWO64 }

  /** Adding back what was subtracted gives the same word, wrap-around included. */
  lemma AddUndoesSub(a: Word, b: nat)
    ensures Add64(Sub64(a, b), b) == a
  {
    var q := (a - b) / TWO64;
    assert Sub64(a, b) == a - b - q * TWO64;
    assert Sub64(a, b) + b == a + (-q) * TWO64;
    ModShift(a, -q);
  }

  lemma ModShift(a: Word, k: int)
    ensures (a + k * TWO64) % TWO64 == a
  {
  }

  /** The two guest instruction sets the driver can be built for. */
  datatype Cpu = X64 | AArch64

  /** One value per guest CPU: the fields of the two global CpuContext records. */
  datatype PerCpu<T> = PerCpu(x64: T, aarch64: T) {
    function Get(c: Cpu): T { if c == X64 then x64 else aarch64 }

    function Set(c: Cpu, v: T): PerCpu<T> {
      if c == X64 then PerCpu(v, aarch64) else PerCpu(x64, v)
    }
  }

  /**
   * The register file uc_context_save copies as a whole. Registers are addressed by number;
   * the stack pointer has number 0 on both guests, and AArch64 returns values in X0,
   * which is also its first argument register.
   */
  const NREGS := 64
  type Regs = r: seq<Word> | |r| == NREGS witness seq(NREGS, _ => 0)

  const REG_SP := 0

  const RAX := 2
  const RCX := 3
  const RDX := 4
  const R8 := 5
  const R9 := 6

  /** AArch64 X0..X7 are registers 2..9. */
  const X0 := 2
  const LR := 10

  /** CpuContext.ReturnValueReg. */
  function ReturnReg(c: Cpu): nat { if c == X64 then RAX else X0 }

  // ----- arithmetic and sequences several modules need -----

  lemma MulMono(a: nat, b: nat, z: nat)
    requires a <= b
    ensures a * z <= b * z
  {
  }

  lemma Distribute(a: int, b: int, z: int)
    ensures (a + b) * z == a * z + b * z
  {
  }

  /** A quotient and a remainder are the quotient and the remainder. */
  lemma DivModOf(x: nat, q: nat, r: nat, d: nat)
    requires d > 0 && r < d && x == q * d + r
    ensures x / d == q && x % d == r
  {
    var p := x / d;
    assert p * d <= x < p * d + d;
    if p < q {
      MulMono(p + 1, q, d);
    }
    if q < p {
      MulMono(q + 1, p, d);
    }
  }

  // ----- masks -----

  function Pow2(k: nat): nat { if k == 0 then 1 else 2 * Pow2(k - 1) }

  /** Bitwise and of two numbers, bit by bit. */
  function BitAnd(x: nat, y: nat): nat {
    if x == 0 || y == 0 then 0 else 2 * BitAnd(x / 2, y / 2) + (x % 2) * (y % 2)
  }

  lemma {:induction false} Pow2Positive(k: nat)
    ensures Pow2(k) > 0
  {
    if k > 0 {
      Pow2Positive(k - 1);
    }
  }

  lemma DoubledMod(y: nat, b: nat, m: nat)
    requires m > 0 && b < 2
    ensures (2 * y + b) % (2 * m) == 2 * (y % m) + b
  {
    var q, r := y / m, y % m;
    Distribute(m, m, q);
    DivModOf(2 * y + b, q, 2 * r + b, 2 * m);
  }

  /** The low k bits of a number: its remainder, taken one bit at a time. */
  lemma LowBits(x: nat, k: nat)
    requires k > 0 && Pow2(k - 1) > 0 && Pow2(k) > 0
    ensures x % Pow2(k) == 2 * (x / 2 % Pow2(k - 1)) + x % 2
  {
    DoubledMod(x / 2, x % 2, Pow2(k - 1));
  }

  lemma AndEven(x: nat, y: nat)
    ensures BitAnd(x, 2 * y) == 2 * BitAnd(x / 2, y)
  {
    DivModOf(2 * y, y, 0, 2);
  }

  lemma AndOdd(x: nat, y: nat)
    ensures BitAnd(x, 2 * y + 1) == 2 * BitAnd(x / 2, y) + x % 2
  {
    DivModOf(2 * y + 1, y, 1, 2);
  }

  lemma LowerBitsMore(x: nat, k: nat, m: nat)
    requires k > 0 && m == Pow2(k - 1) && m > 0 && BitAnd(x / 2, m - 1) == x / 2 % m
    ensures Pow2(k) > 0 && BitAnd(x, 2 * m - 1) == x % Pow2(k)
  {
    AndOdd(x, m - 1);
    LowBits(x, k);
  }

  /** Masking with n - 1, for n a power of two, is the remainder. */
  lemma {:induction false} MaskIsRemainder(x: nat, k: nat)
    ensures Pow2(k) > 0 && BitAnd(x, Pow2(k) - 1) == x % Pow2(k)
  {
    if k == 0 {
      DivModOf(x, x, 0, 1);
    } else {
      MaskIsRemainder(x / 2, k - 1);
      LowerBitsMore(x, k, Pow2(k - 1));
    }
  }

  lemma MaskTakesAll(x: nat, w: nat)
    requires x < Pow2(w)
    ensures Pow2(w) >= 1 && BitAnd(x, Pow2(w) - 1) == x && x % Pow2(0) == 0
  {
    MaskIsRemainder(x, w);
    DivModOf(x, 0, x, Pow2(w));
    DivModOf(x, x, 0, 1);
  }

  /** What masking with the complement of n - 1 is, given what it is one bit further up. */
  lemma MaskOneBitMore(x: nat, k: nat, p: nat, m: nat)
    requires k > 0 && m == Pow2(k - 1) && 0 < m <= p
    requires BitAnd(x / 2, p - m) == x / 2 - x / 2 % m
    ensures Pow2(k) > 0 && BitAnd(x, 2 * p - 2 * m) == x - x % Pow2(k)
  {
    AndEven(x, p - m);
    LowBits(x, k);
  }

  /** Masking a w-bit number with the w-bit complement of n - 1 takes the remainder off. */
  lemma {:induction false} ComplementTakesRemainderOff(x: nat, k: nat, w: nat)
    requires k <= w && x < Pow2(w)
    ensures Pow2(w) >= Pow2(k) > 0 && BitAnd(x, Pow2(w) - Pow2(k)) == x - x % Pow2(k)
  {
    if k == 0 {
      MaskTakesAll(x, w);
    } else {
      ComplementTakesRemainderOff(x / 2, k - 1, w - 1);
      MaskOneBitMore(x, k, Pow2(w - 1), Pow2(k - 1));
    }
  }

  /** The initial free queue holds every slot below n once and no other. */
  lemma {:induction false} FreshSlots(n: nat, id: nat)
    ensures multiset(seq(n, i => i))[id] == if id < n then 1 else 0
  {
    if n > 0 {
      FreshSlots(n - 1, id);
      var m := n - 1;
      assert seq(n, i => i) == seq(m, i => i) + [m];
    }
  }
}

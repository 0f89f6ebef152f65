/**
 * RISC-V hosts: rebuilding the call target after an instruction fetch fault in emulated code, by
 * decoding the jalr or c.jalr before the return address. SEPC has its low bits cleared, so it
 * can confirm a target but not supply it. Instruction fields are written with division and
 * remainder; FieldsAreMasks ties them to the masks and shifts of the code.
 */
module CallRecovery {
  import opened Words

  /** X0 to X31 of EFI_SYSTEM_CONTEXT_RISCV64. */
  type Registers = r: seq<Word> | |r| == 32 witness seq(32, _ => 0)
  type Word32 = w: int | 0 <= w < 0x1_0000_0000

  const RA := 1

  /**
   * Decoded: a target was stored through ProgramCounter, and the call succeeds if SEPC confirms it.
   * Unknown: EFI_NOT_FOUND with nothing stored.
   */
  datatype Recovery = Unknown | Decoded(pc: Word, confirmed: bool)

  /** A signed 12-bit bit-field. */
  function SignExtend12(x: nat): int { if x >= 2048 then x - 4096 else x }

  function Offset(base: Word, offset: int): Word { (base + offset) % TWO64 }

  /** Value & INSN_C_ADDR_MASK and value & INSN_ADDR_MASK. */
  function ClearBit(pc: Word): Word { pc - pc % 2 }

  function ClearBits(pc: Word): Word { pc - pc % 4 }

  /** opcode jalr, rd x1, and the two low bits of func3 zero. */
  predicate IsJalrX1(w: Word32) { w % 0x80 == 0x67 && w / 0x80 % 0x20 == 1 && w / 0x1000 % 4 == 0 }

  /** op C2, funct4 of c.jalr, rs1 not zero, rs2 zero. */
  predicate IsCJalr(h: Word32) { h % 4 == 2 && h / 0x1000 % 0x10 == 9 && h / 0x80 % 0x20 != 0 && h / 4 % 0x20 == 0 }

  function RsOf(w: Word32): nat { w / 0x8000 % 0x20 }

  function ImmOf(w: Word32): nat { w / 0x10_0000 }

  function CRsOf(h: Word32): nat { h / 0x80 % 0x20 }

  /** word: the four bytes before the return address; its upper half is the halfword before it. */
  function RecoverPcFromCall(word: Word32, regs: Registers, sepc: Word): Recovery {
    if word % 4 == 3 then
      if IsJalrX1(word) then
        var pc := Offset(regs[RsOf(word)], SignExtend12(ImmOf(word)));
        Decoded(pc, !(ClearBit(pc) != sepc && ClearBits(pc) != sepc))
      else Unknown
    else
      var insn := word / 0x1_0000;
      if insn % 4 == 3 then Unknown
      else if IsCJalr(insn) then
        var pc := regs[CRsOf(insn)];
        Decoded(pc, !(ClearBit(pc) != sepc))
      else Unknown
  }

  /** The masks and shifts of the code say the same on machine words. */
  lemma FieldsAreMasks(w: bv32)
    ensures (w & 0x3 == 0x3 <==> w % 4 == 3) && (w & 0x7f == 0x67 <==> w % 0x80 == 0x67)
    ensures (w & 0xf80 == 0x80 <==> w / 0x80 % 0x20 == 1) && (w & 0x3000 == 0 <==> w / 0x1000 % 4 == 0)
    ensures (w >> 15) & 0x1F == w / 0x8000 % 0x20 && w >> 20 == w / 0x10_0000
    ensures (w & 0x3 == 2 <==> w % 4 == 2) && (w & 0xf000 == 0x9000 <==> w / 0x1000 % 0x10 == 9)
    ensures (w & 0xf80 != 0 <==> w / 0x80 % 0x20 != 0) && (w & 0x7c == 0 <==> w / 4 % 0x20 == 0)
    ensures (w >> 7) & 0x1F == w / 0x80 % 0x20 && w >> 16 == w / 0x1_0000
  {
  }

  // ----- the instructions, from the encoding tables of the ISA manual -----

  /** jalr x1, imm(rs): imm in bits 31..20, rs in 19..15, func3 0, rd 1, opcode 0x67. */
  function Jalr(rs: nat, imm: nat): Word32
    requires rs < 32 && imm < 4096
  {
    imm * 0x10_0000 + rs * 0x8000 + 0x80 + 0x67
  }

  /** c.jalr rs: funct4 9, rs in bits 11..7, rs2 0, op 2. */
  function CJalr(rs: nat): Word32
    requires rs < 32
  {
    0x9002 + rs * 0x80
  }

  /** The call writes the return address to x1 and leaves every other register alone. */
  ghost predicate Links(before: Registers, after: Registers, ra: Word) { after == before[RA := ra] }

  lemma JalrFields(rs: nat, imm: nat)
    requires rs < 32 && imm < 4096
    ensures Jalr(rs, imm) % 4 == 3 && IsJalrX1(Jalr(rs, imm))
    ensures RsOf(Jalr(rs, imm)) == rs && ImmOf(Jalr(rs, imm)) == imm
  {
    var w := Jalr(rs, imm);
    DivModOf(w, imm * 0x4_0000 + rs * 0x2000 + 0x39, 3, 4);
    DivModOf(w, imm * 0x2000 + rs * 0x100 + 1, 0x67, 0x80);
    DivModOf(w / 0x80, imm * 0x100 + rs * 8, 1, 0x20);
    DivModOf(w, imm * 0x100 + rs * 8, 0xe7, 0x1000);
    DivModOf(w / 0x1000, imm * 0x40 + rs * 2, 0, 4);
    DivModOf(w, imm * 0x20 + rs, 0xe7, 0x8000);
    DivModOf(w / 0x8000, imm, rs, 0x20);
    DivModOf(w, imm, rs * 0x8000 + 0xe7, 0x10_0000);
  }

  lemma CJalrFields(rs: nat, prev: nat)
    requires 0 < rs < 32 && prev < 0x1_0000
    ensures var w := CJalr(rs) * 0x1_0000 + prev; w % 4 == prev % 4 && w / 0x1_0000 == CJalr(rs)
    ensures CJalr(rs) % 4 == 2 && IsCJalr(CJalr(rs)) && CRsOf(CJalr(rs)) == rs
  {
  }

  lemma OffsetInjective(a: Word, b: Word, x: int)
    requires a != b
    ensures Offset(a, x) != Offset(b, x)
  {
    var p, q := (a + x) / TWO64, (b + x) / TWO64;
    assert a + x == p * TWO64 + Offset(a, x) && b + x == q * TWO64 + Offset(b, x);
  }

  /**
   * Recovery inverts jalr for every signed 12-bit offset: with an SEPC that is the target with bit 0,
   * or bits 0 and 1, cleared, the target being rs plus the offset modulo 2^64, it yields that target
   * exactly when the call did not go through x1 itself, which the call overwrites (or x1 already held
   * the return address).
   */
  lemma RecoversJalrIff(rs: nat, off: int, before: Registers, after: Registers, ra: Word, sepc: Word)
    requires rs < 32 && -2048 <= off < 2048 && Links(before, after, ra)
    requires var target := (before[rs] + off) % TWO64; sepc == target - target % 2 || sepc == target - target % 4
    ensures RecoverPcFromCall(Jalr(rs, off % 4096), after, sepc) == Decoded((before[rs] + off) % TWO64, true) <==>
            (rs != RA || before[RA] == ra)
  {
    JalrRecovery(rs, off % 4096, after, sepc);
    SignedField(off);
    if rs == RA && before[RA] != ra {
      OffsetInjective(before[RA], ra, off);
    }
  }

  /** What recovery makes of a jalr, in terms of its fields. */
  lemma JalrRecovery(rs: nat, imm: nat, regs: Registers, sepc: Word)
    requires rs < 32 && imm < 4096
    ensures var pc := Offset(regs[rs], SignExtend12(imm));
            RecoverPcFromCall(Jalr(rs, imm), regs, sepc) == Decoded(pc, sepc == ClearBit(pc) || sepc == ClearBits(pc))
  {
    JalrFields(rs, imm);
  }

  /** The signed bit-field reads back the offset the instruction was encoded with. */
  lemma SignedField(off: int)
    requires -2048 <= off < 2048
    ensures SignExtend12(off % 4096) == off
  {
    assert off % 4096 == if off < 0 then off + 4096 else off;
  }

  /** The same for c.jalr, when the halfword before it does not look like part of a 32-bit instruction. */
  lemma RecoversCJalrIff(rs: nat, prev: nat, before: Registers, after: Registers, ra: Word, sepc: Word)
    requires 0 < rs < 32 && prev < 0x1_0000 && prev % 4 != 3 && Links(before, after, ra)
    requires sepc == before[rs] - before[rs] % 2
    ensures RecoverPcFromCall(CJalr(rs) * 0x1_0000 + prev, after, sepc) == Decoded(before[rs], true) <==>
            (rs != RA || before[RA] == ra)
  {
    CJalrFields(rs, prev);
  }

  // ----- nothing else is taken for a call -----

  /** jalr x1 as the code recognises it: bit 2 of func3 is not looked at. */
  predicate AJalrX1(w: int, rs: nat, imm: nat, bit: nat) {
    rs < 32 && imm < 4096 && bit < 2 && w == Jalr(rs, imm) + bit * 0x4000
  }

  predicate ACJalr(h: int, rs: nat) { 0 < rs < 32 && h == CJalr(rs) }

  lemma JalrX1Disassembled(w: Word32) returns (rs: nat, imm: nat, bit: nat)
    requires IsJalrX1(w)
    ensures AJalrX1(w, rs, imm, bit)
  {
    var a := w / 0x80;
    var b := a / 0x20;
    var d := b / 4;
    DivModOf(w, b, 0x80 + 0x67, 0x1000);
    bit, rs, imm := d % 2, d / 2 % 0x20, d / 2 / 0x20;
  }

  lemma JalrX1Assembled(w: Word32, rs: nat, imm: nat, bit: nat)
    requires AJalrX1(w, rs, imm, bit)
    ensures w % 4 == 3 && IsJalrX1(w)
  {
    DivModOf(w, imm * 0x4_0000 + rs * 0x2000 + bit * 0x1000 + 0x39, 3, 4);
    DivModOf(w, imm * 0x2000 + rs * 0x100 + bit * 0x80 + 1, 0x67, 0x80);
    DivModOf(w / 0x80, imm * 0x100 + rs * 8 + bit * 4, 1, 0x20);
    DivModOf(w, imm * 0x100 + rs * 8 + bit * 4, 0xe7, 0x1000);
    DivModOf(w / 0x1000, imm * 0x40 + rs * 2 + bit, 0, 4);
  }

  lemma CJalrDisassembled(h: nat) returns (rs: nat)
    requires h < 0x1_0000 && IsCJalr(h)
    ensures ACJalr(h, rs)
  {
    var k := h / 4;
    var m := k / 0x20;
    DivModOf(h, m, 2, 0x80);
    DivModOf(h, m / 0x20, m % 0x20 * 0x80 + 2, 0x1000);
    rs := m % 0x20;
  }

  /**
   * A target is decoded exactly when the word is a jalr x1, or a halfword that does not end in
   * binary 11 is followed by a c.jalr.
   */
  lemma DecodesCallsOnly(word: Word32, regs: Registers, sepc: Word)
    ensures RecoverPcFromCall(word, regs, sepc).Decoded? <==>
            || (exists rs, imm, bit :: AJalrX1(word, rs, imm, bit))
            || (word % 4 != 3 && exists rs :: ACJalr(word / 0x1_0000, rs))
  {
    if word % 4 == 3 && IsJalrX1(word) {
      var rs, imm, bit := JalrX1Disassembled(word);
    }
    if rs, imm, bit :| AJalrX1(word, rs, imm, bit) {
      JalrX1Assembled(word, rs, imm, bit);
    }
    if word % 4 != 3 {
      if IsCJalr(word / 0x1_0000) {
        var rs := CJalrDisassembled(word / 0x1_0000);
      }
      if rs :| ACJalr(word / 0x1_0000, rs) {
        CJalrFields(rs, 0);
      }
    }
  }

  /** The fields IsJalrX1 looks at lie in the lower half. */
  lemma LowHalfFields(h: nat, prev: nat)
    requires h < 0x1_0000 && prev < 0x1_0000
    ensures (h * 0x1_0000 + prev) % 0x80 == prev % 0x80
    ensures (h * 0x1_0000 + prev) / 0x80 % 0x20 == prev / 0x80 % 0x20
    ensures (h * 0x1_0000 + prev) / 0x1000 % 4 == prev / 0x1000 % 4
  {
    Opcode(h, prev);
    Rd(h, prev);
    Func3(h, prev);
  }

  lemma Opcode(h: nat, prev: nat)
    requires h < 0x1_0000 && prev < 0x1_0000
    ensures (h * 0x1_0000 + prev) % 0x80 == prev % 0x80
  {
    DivModOf(h * 0x1_0000 + prev, h * 0x200 + prev / 0x80, prev % 0x80, 0x80);
  }

  lemma Rd(h: nat, prev: nat)
    requires h < 0x1_0000 && prev < 0x1_0000
    ensures (h * 0x1_0000 + prev) / 0x80 % 0x20 == prev / 0x80 % 0x20
  {
    var q := prev / 0x80;
    DivModOf(h * 0x1_0000 + prev, h * 0x200 + q, prev % 0x80, 0x80);
    DivModOf(h * 0x200 + q, h * 0x10 + q / 0x20, q % 0x20, 0x20);
  }

  lemma Func3(h: nat, prev: nat)
    requires h < 0x1_0000 && prev < 0x1_0000
    ensures (h * 0x1_0000 + prev) / 0x1000 % 4 == prev / 0x1000 % 4
  {
    var q := prev / 0x1000;
    DivModOf(h * 0x1_0000 + prev, h * 0x10 + q, prev % 0x1000, 0x1000);
    DivModOf(h * 0x10 + q, h * 4 + q / 4, q % 4, 4);
  }

  /** The lower 14 bits, put together from func3's low bits, rd and opcode. */
  lemma LowFourteenBits(prev: nat)
    requires prev < 0x1_0000
    ensures prev % 0x80 == 0x67 && prev / 0x80 % 0x20 == 1 && prev / 0x1000 % 4 == 0 <==> prev % 0x4000 == 0xe7
  {
    var opcode, rest := prev % 0x80, prev / 0x80;
    var rd, func := rest % 0x20, rest / 0x20;
    var low, high := func % 4, func / 4;
    assert prev == (high * 4 + low) * 0x1000 + rd * 0x80 + opcode;
    Assembled(high, low, rd, opcode);
  }

  lemma Assembled(high: nat, low: nat, rd: nat, opcode: nat)
    requires low < 4 && rd < 0x20 && opcode < 0x80
    ensures var w := (high * 4 + low) * 0x1000 + rd * 0x80 + opcode;
            w % 0x4000 == low * 0x1000 + rd * 0x80 + opcode && w / 0x1000 == high * 4 + low
  {
  }

  /** After any other halfword a c.jalr is refused, unless the two together pass for a jalr x1. */
  lemma CJalrMisreadIff(rs: nat, prev: nat, regs: Registers, sepc: Word)
    requires 0 < rs < 32 && prev < 0x1_0000 && prev % 4 == 3
    ensures RecoverPcFromCall(CJalr(rs) * 0x1_0000 + prev, regs, sepc) != Unknown <==> prev % 0x4000 == 0xe7
  {
    var w := CJalr(rs) * 0x1_0000 + prev;
    assert w % 4 == 3;
    LowHalfFields(CJalr(rs), prev);
    LowFourteenBits(prev);
    assert IsJalrX1(w) <==> prev % 0x4000 == 0xe7;
  }

  /** Whatever is decoded, a confirmed target exceeds SEPC by at most 3, or 1 when compressed. */
  lemma ConfirmedIsNearSepc(word: Word32, regs: Registers, sepc: Word)
    requires RecoverPcFromCall(word, regs, sepc).Decoded? && RecoverPcFromCall(word, regs, sepc).confirmed
    ensures 0 <= RecoverPcFromCall(word, regs, sepc).pc - sepc <= if word % 4 == 3 then 3 else 1
  {
  }
}

/** The A64 instructions the relocator reads or writes, after the pseudocode of chapter C6.2 of the
    Arm Architecture Reference Manual (DDI 0487): what one instruction does to the machine. Bit
    fields are written as quotients and remainders by powers of two. */
module Arm64Isa {
  import opened Options
  const TWO32 := 0x1_0000_0000
  const TWO64 := 0x1_0000_0000_0000_0000

  type word = i: int | 0 <= i < 0x1_0000_0000

  type u64 = v: int | 0 <= v < 0x1_0000_0000_0000_0000

  function Wrap(v: int): u64 { v % TWO64 }

  datatype Flags = Flags(n: bool, z: bool, c: bool, v: bool)

  datatype State = State(pc: u64, x: map<int, u64>, sp: u64, flags: Flags)

  /** Register 31 reads as zero where it does not mean the stack pointer. */
  function Reg(s: State, r: int): u64 { if r == 31 || r !in s.x then 0 else s.x[r] }

  function WithReg(s: State, r: int, v: u64): State { if r == 31 then s else s.(x := s.x[r := v]) }

  function RegOrSp(s: State, r: int): u64 { if r == 31 then s.sp else Reg(s, r) }

  function WithRegOrSp(s: State, r: int, v: u64): State { if r == 31 then s.(sp := v) else WithReg(s, r, v) }

  function Next(s: State): State { s.(pc := Wrap(s.pc + 4)) }

  function Goto(s: State, taken: bool, target: u64): State { if taken then s.(pc := target) else Next(s) }

  // Fields.
  function Rd(i: word): int { i % 32 }

  function Rn(i: word): int { (i / 32) % 32 }

  function Imm14(i: word): int { (i / 32) % 0x4000 }

  function Imm16(i: word): int { (i / 32) % 0x1_0000 }

  function Imm19(i: word): int { (i / 32) % 0x8_0000 }

  function Imm26(i: word): int { i % 0x400_0000 }

  /** immhi:immlo of ADR and ADRP */
  function Imm21(i: word): int { 4 * Imm19(i) + (i / 0x2000_0000) % 4 }

  function Imm12(i: word): int { (i / 0x400) % 0x1000 }

  function Bit24(i: word): int { (i / 0x100_0000) % 2 }

  function Bit31(i: word): int { i / 0x8000_0000 }

  function Bits19(i: word): int { (i / 0x8_0000) % 32 }

  // Two's complement values of fields of 14, 19, 21 and 26 bits.
  function Ext14(v: int): int { if v < 0x2000 then v else v - 0x4000 }

  function Ext19(v: int): int { if v < 0x4_0000 then v else v - 0x8_0000 }

  function Ext21(v: int): int { if v < 0x10_0000 then v else v - 0x20_0000 }

  function Ext26(v: int): int { if v < 0x200_0000 then v else v - 0x400_0000 }

  predicate IsB(i: word) { i / 0x400_0000 == 0x05 }

  predicate IsBl(i: word) { i / 0x400_0000 == 0x25 }

  predicate IsBcond(i: word) { i / 0x100_0000 == 0x54 && (i / 16) % 2 == 0 }

  predicate IsCbz(i: word) { (i / 0x200_0000) % 64 == 0x1a }

  predicate IsTbz(i: word) { (i / 0x200_0000) % 64 == 0x1b }

  predicate IsBr(i: word) { i / 0x400 == 0x3587c0 && i % 32 == 0 }

  predicate IsBlr(i: word) { i / 0x400 == 0x358fc0 && i % 32 == 0 }

  predicate IsAdr(i: word) { (i / 0x100_0000) % 32 == 0x10 && i / 0x8000_0000 == 0 }

  predicate IsAdrp(i: word) { (i / 0x100_0000) % 32 == 0x10 && i / 0x8000_0000 == 1 }

  predicate IsAddImm(i: word) { (i / 0x100_0000) % 128 == 0x11 && (i / 0x40_0000) % 4 == 0 }

  predicate IsMovn64(i: word) { i / 0x80_0000 == 0x125 }

  predicate IsMovz64(i: word) { i / 0x80_0000 == 0x1a5 }

  predicate IsMovk64(i: word) { i / 0x80_0000 == 0x1e5 }

  /** MOVN with a W register; halfwords 2 and 3 are unallocated there. */
  predicate IsMovn32(i: word) { i / 0x40_0000 == 0x4a }

  function Halfword(i: word): int { (i / 0x20_0000) % 4 }

  /** A register value as its four halfwords, lowest first. */
  datatype Pieces = Pieces(p0: int, p1: int, p2: int, p3: int) {
    function Get(k: int): int { if k == 0 then p0 else if k == 1 then p1 else if k == 2 then p2 else p3 }

    function Set(k: int, v: int): Pieces
    {
      if k == 0 then this.(p0 := v) else if k == 1 then this.(p1 := v) else if k == 2 then this.(p2 := v)
      else this.(p3 := v)
    }
  }

  function Split(v: u64): Pieces
  {
    Pieces(v % 0x1_0000, (v / 0x1_0000) % 0x1_0000, (v / 0x1_0000_0000) % 0x1_0000, v / 0x1_0000_0000_0000)
  }

  function Join(p: Pieces): int { p.p0 + 0x1_0000 * p.p1 + 0x1_0000_0000 * p.p2 + 0x1_0000_0000_0000 * p.p3 }

  function All(d: int): Pieces { Pieces(d, d, d, d) }

  function ConditionHolds(cond: int, f: Flags): bool
  {
    var kind := cond / 2;
    var holds :=
      if kind == 0 then f.z
      else if kind == 1 then f.c
      else if kind == 2 then f.n
      else if kind == 3 then f.v
      else if kind == 4 then f.c && !f.z
      else if kind == 5 then f.n == f.v
      else if kind == 6 then f.n == f.v && !f.z
      else true;
    if cond % 2 == 1 && cond != 15 then !holds else holds
  }

  predicate BcondTaken(i: word, s: State) { ConditionHolds(i % 16, s.flags) }

  /** CBZ and CBNZ: the register (or its lower half) compared with zero. */
  predicate CbzTaken(i: word, s: State)
  {
    var v := if Bit31(i) == 0 then Reg(s, Rd(i)) % TWO32 else Reg(s, Rd(i));
    (v == 0) == (Bit24(i) == 0)
  }

  function Power(k: int): (p: nat)
    ensures p > 0
  {
    if k <= 0 then 1 else 2 * Power(k - 1)
  }

  function BitOf(v: int, k: int): int { (v / Power(k)) % 2 }

  /** TBZ and TBNZ: the bit b5:b40 of the register. */
  predicate TbzTaken(i: word, s: State)
  {
    (BitOf(Reg(s, Rd(i)), 32 * Bit31(i) + Bits19(i)) == 0) == (Bit24(i) == 0)
  }

  /** MOVZ, MOVN and MOVK, and MOVN on a W register. */
  function Moved(i: word, was: u64): Pieces
  {
    if IsMovz64(i) then All(0).Set(Halfword(i), Imm16(i))
    else if IsMovn64(i) then All(0xffff).Set(Halfword(i), 0xffff - Imm16(i))
    else if IsMovk64(i) then Split(was).Set(Halfword(i), Imm16(i))
    else Pieces(0xffff, 0xffff, 0, 0).Set(Halfword(i), 0xffff - Imm16(i))
  }

  predicate IsMove(i: word) { IsMovz64(i) || IsMovn64(i) || IsMovk64(i) || IsMovn32(i) }

  /** One instruction; `None` for those outside this model. */
  function Step(i: word, s: State): Option<State>
  {
    if IsB(i) then Some(s.(pc := Wrap(s.pc + 4 * Ext26(Imm26(i)))))
    else if IsBl(i) then Some(WithReg(s, 30, Wrap(s.pc + 4)).(pc := Wrap(s.pc + 4 * Ext26(Imm26(i)))))
    else if IsBcond(i) then Some(Goto(s, BcondTaken(i, s), Wrap(s.pc + 4 * Ext19(Imm19(i)))))
    else if IsCbz(i) then Some(Goto(s, CbzTaken(i, s), Wrap(s.pc + 4 * Ext19(Imm19(i)))))
    else if IsTbz(i) then Some(Goto(s, TbzTaken(i, s), Wrap(s.pc + 4 * Ext14(Imm14(i)))))
    else if IsBr(i) then Some(s.(pc := Reg(s, Rn(i))))
    else if IsBlr(i) then Some(WithReg(s, 30, Wrap(s.pc + 4)).(pc := Reg(s, Rn(i))))
    else if IsAdr(i) then Some(Next(WithReg(s, Rd(i), Wrap(s.pc + Ext21(Imm21(i))))))
    else if IsAdrp(i) then Some(Next(WithReg(s, Rd(i), Wrap(s.pc - s.pc % 0x1000 + 0x1000 * Ext21(Imm21(i))))))
    else if IsAddImm(i) then
      var sum := RegOrSp(s, Rn(i)) + Imm12(i);
      Some(Next(WithRegOrSp(s, Rd(i), if Bit31(i) == 0 then sum % TWO32 else Wrap(sum))))
    else if IsMove(i) then Some(Next(WithReg(s, Rd(i), Wrap(Join(Moved(i, Reg(s, Rd(i))))))))
    else None
  }

  /** Words whose effect depends on where they stand. */
  predicate PcRelative(i: word)
  {
    IsB(i) || IsBl(i) || IsBcond(i) || IsCbz(i) || IsTbz(i) || IsAdr(i) || IsAdrp(i)
  }

  /** The word transfers control in state `s` instead of going on behind itself. */
  predicate Branches(i: word, s: State)
  {
    || IsB(i) || IsBl(i) || IsBr(i) || IsBlr(i)
    || (IsBcond(i) && BcondTaken(i, s)) || (IsCbz(i) && CbzTaken(i, s)) || (IsTbz(i) && TbzTaken(i, s))
  }

  /** Words that leave the address behind them in the link register. */
  predicate Links(i: word) { IsBl(i) || IsBlr(i) }

  /** Runs emitted words from their first on: until control falls off the end, or leaves them. Within
      a sequence the relocator only ever skips one word. */
  function Exec(words: seq<word>, s: State): Option<State>
    decreases |words|
  {
    if |words| == 0 then Some(s)
    else
      match Step(words[0], s)
      case None => None
      case Some(t) =>
        if t.pc == Wrap(s.pc + 4) then Exec(words[1..], t)
        else if t.pc == Wrap(s.pc + 8) && |words| >= 2 then Exec(words[2..], t)
        else Some(t)
  }
}

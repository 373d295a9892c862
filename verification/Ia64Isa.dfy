/** IA-64 bundles as the architecture defines them (Intel Itanium Architecture Software Developer's
    Manual, volume 3, chapter 4): 128 bits holding a 5-bit template and three 41-bit slots, the
    instructions among them that name a target relative to their own bundle, long branches and long
    moves. Written from the instruction formats and not from the copier. */
module Ia64Isa {
  import opened Options

  const TWO64 := 0x1_0000_0000_0000_0000
  const TWO41 := 0x200_0000_0000

  type u64 = v: int | 0 <= v < 0x1_0000_0000_0000_0000

  function Wrap(v: int): u64 { v % TWO64 }

  /** The two 64-bit halves of a bundle. */
  datatype Wide = Wide(lo: u64, hi: u64)

  datatype Unit = NoUnit | I | M | B | F | L | X

  /** The bundle as one number. */
  function Number(w: Wide): nat { w.lo + TWO64 * w.hi }

  /** Bits 5 to 45, 46 to 86 or 87 to 127. */
  function Slot(w: Wide, k: int): int
  {
    (Number(w) / (if k == 0 then 0x20 else if k == 1 then 0x4000_0000_0000 else 0x80_0000 * TWO64)) % TWO41
  }

  /** Template field encoding and instruction slot mapping; 06, 07, 14, 15, 1A, 1B, 1E and 1F are
      reserved. */
  function SlotUnits(template: int): (Unit, Unit, Unit)
  {
    match template
    case 0x00 | 0x01 | 0x02 | 0x03 => (M, I, I)
    case 0x04 | 0x05 => (M, L, X)
    case 0x08 | 0x09 | 0x0a | 0x0b => (M, M, I)
    case 0x0c | 0x0d => (M, F, I)
    case 0x0e | 0x0f => (M, M, F)
    case 0x10 | 0x11 => (M, I, B)
    case 0x12 | 0x13 => (M, B, B)
    case 0x16 | 0x17 => (B, B, B)
    case 0x18 | 0x19 => (M, M, B)
    case 0x1c | 0x1d => (M, F, B)
    case _ => (NoUnit, NoUnit, NoUnit)
  }

  function SlotUnit(w: Wide, k: int): Unit
  {
    var units := SlotUnits(Number(w) % 32);
    if k == 0 then units.0 else if k == 1 then units.1 else units.2
  }

  // ---------------------------------------------------------------- bundle-relative instructions

  /** The formats with a displacement: chk.s.m, chk.s of a floating-point register, the advanced load
      checks, chk.s.i, fchkf, and the branches and calls (B1 to B3). */
  datatype Format = M20 | M21 | M22 | M23 | I20 | F14 | B1 | B3

  /** Bits 37 to 40 and 33 to 35. */
  function Major(i: int): int { i / 0x20_0000_0000 }

  function Minor(i: int): int { (i / 0x2_0000_0000) % 8 }

  function FormatOf(unit: Unit, i: int): Option<Format>
  {
    match unit
    case M =>
      if Major(i) == 1 && Minor(i) == 1 then Some(M20)
      else if Major(i) == 1 && Minor(i) == 3 then Some(M21)
      else if Major(i) == 0 && (Minor(i) == 4 || Minor(i) == 5) then Some(M22)
      else if Major(i) == 0 && (Minor(i) == 6 || Minor(i) == 7) then Some(M23)
      else None
    case I => if Major(i) == 0 && Minor(i) == 1 then Some(I20) else None
    case F => if Major(i) == 0 && (i / 0x800_0000) % 128 == 8 then Some(F14) else None
    case B => if Major(i) == 4 then Some(B1) else if Major(i) == 5 then Some(B3) else None
    case _ => None
  }

  /** The twenty low bits of the displacement, in bundles: imm7a and imm13c, imm20a, or imm20b. */
  function LowTwenty(format: Format, i: int): int
  {
    match format
    case M20 | M21 | I20 => (i / 64) % 128 + 128 * ((i / 0x10_0000) % 0x2000)
    case F14 => (i / 64) % 0x10_0000
    case M22 | M23 | B1 | B3 => (i / 0x2000) % 0x10_0000
  }

  function Sign(i: int): int { (i / 0x10_0000_0000) % 2 }

  /** target25: the address of the bundle plus the signed displacement. */
  function Target(format: Format, i: int, ip: u64): u64
  {
    Wrap(ip + 16 * (LowTwenty(format, i) - 0x10_0000 * Sign(i)))
  }

  /** The instruction without its displacement. */
  function Rest(format: Format, i: int): int
  {
    match format
    case M20 | M21 | I20 =>
      i - 64 * ((i / 64) % 128) - 0x10_0000 * ((i / 0x10_0000) % 0x2000) - 0x10_0000_0000 * Sign(i)
    case F14 => i - 64 * ((i / 64) % 0x10_0000) - 0x10_0000_0000 * Sign(i)
    case M22 | M23 | B1 | B3 => i - 0x2000 * ((i / 0x2000) % 0x10_0000) - 0x10_0000_0000 * Sign(i)
  }

  function FormatAt(w: Wide, k: int): Option<Format> { FormatOf(SlotUnit(w, k), Slot(w, k)) }

  /** The number of bundle-relative instructions in slots below `k`. */
  function RelativeBefore(w: Wide, k: nat): nat
  {
    if k == 0 then 0 else RelativeBefore(w, k - 1) + (if FormatAt(w, k - 1).Some? then 1 else 0)
  }

  // ---------------------------------------------------------------- long instructions

  predicate IsLong(w: Wide) { SlotUnit(w, 1) == L }

  /** brl.cond and brl.call (X3 and X4). */
  predicate LongBranch(w: Wide) { IsLong(w) && (Major(Slot(w, 2)) == 0xc || Major(Slot(w, 2)) == 0xd) }

  /** target64: i, imm39 and imm20b count bundles. */
  function LongTarget(w: Wide, ip: u64): u64
  {
    var low, high := (Slot(w, 2) / 0x2000) % 0x10_0000, Slot(w, 1) / 4;
    Wrap(ip + 16 * (low + 0x10_0000 * high + 0x800_0000_0000_0000 * Sign(Slot(w, 2))))
  }

  /** movl (X2) into the register in bits 6 to 12. */
  predicate LongMove(w: Wide, r: int)
  {
    IsLong(w) && Major(Slot(w, 2)) == 6 && (Slot(w, 2) / 0x10_0000) % 2 == 0 && (Slot(w, 2) / 64) % 128 == r
  }

  /** imm64: i, imm41, ic, imm5c, imm9d and imm7b. */
  function LongImmediate(w: Wide): int
  {
    var x := Slot(w, 2);
    (x / 0x2000) % 128 + 0x80 * ((x / 0x800_0000) % 512) + 0x1_0000 * ((x / 0x40_0000) % 32)
    + 0x20_0000 * ((x / 0x20_0000) % 2) + 0x40_0000 * Slot(w, 1) + 0x8000_0000_0000_0000 * Sign(x)
  }
}

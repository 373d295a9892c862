/** The instruction words the relocator assembles from fields (unions of class CDetourDis). Field
    values are truncated to their width, as assignment to a bit-field does. */
module Arm64Assemble {
  import opened Arm64Isa

  /** (LONG)(field << up) >> down, in 32 bits: the byte displacement of a branch. */
  function ShiftedImm(field: int, up: int, down: int): int
    requires up > 0 && down > 0
  {
    var w := (field * up) % TWO32;
    (if w < 0x8000_0000 then w else w - TWO32) / down
  }

  function Bcc19Imm(i: word): int { ShiftedImm(Imm19(i), 0x2000, 0x800) }

  function Branch26Imm(i: word): int { ShiftedImm(Imm26(i), 0x40, 0x10) }

  function Tbz14Imm(i: word): int { ShiftedImm(Imm14(i), 0x4_0000, 0x1_0000) }

  function Adr19Imm(i: word): int { ShiftedImm(Imm21(i), 0x800, 0x800) }

  /** The decoders compute the displacement the architecture defines. */
  lemma Imms(i: word)
    ensures Bcc19Imm(i) == 4 * Ext19(Imm19(i))
    ensures Branch26Imm(i) == 4 * Ext26(Imm26(i))
    ensures Tbz14Imm(i) == 4 * Ext14(Imm14(i))
    ensures Adr19Imm(i) == Ext21(Imm21(i))
  {
    Imm19Value(Imm19(i));
    Imm26Value(Imm26(i));
    Imm14Value(Imm14(i));
    Imm21Value(Imm21(i));
  }

  lemma Imm19Value(v: int)
    requires 0 <= v < 0x8_0000
    ensures ShiftedImm(v, 0x2000, 0x800) == 4 * Ext19(v)
  {
  }

  lemma Imm26Value(v: int)
    requires 0 <= v < 0x400_0000
    ensures ShiftedImm(v, 0x40, 0x10) == 4 * Ext26(v)
  {
  }

  lemma Imm14Value(v: int)
    requires 0 <= v < 0x4000
    ensures ShiftedImm(v, 0x4_0000, 0x1_0000) == 4 * Ext14(v)
  {
  }

  lemma Imm21Value(v: int)
    requires 0 <= v < 0x20_0000
    ensures ShiftedImm(v, 0x800, 0x800) == Ext21(v)
  {
  }

  function AssembleBcc(condition: int, delta: int): word
  {
    condition % 16 + 32 * ((delta / 4) % 0x8_0000) + 0x100_0000 * 0x54
  }

  function AssembleBranch(link: bool, delta: int): word
  {
    (delta / 4) % 0x400_0000 + 0x400_0000 * 0x05 + (if link then 0x8000_0000 else 0)
  }

  function AssembleBr(rn: int, link: bool): word
  {
    32 * (rn % 32) + 0x400 * 0x3587c0 + (if link then 0x20_0000 else 0)
  }

  function AssembleCbz(size: int, nz: int, rt: int, delta: int): word
  {
    rt % 32 + 32 * ((delta / 4) % 0x8_0000) + 0x100_0000 * (nz % 2) + 0x200_0000 * 0x1a + 0x8000_0000 * (size % 2)
  }

  function AssembleTbz(size: int, nz: int, rt: int, bit: int, delta: int): word
  {
    rt % 32 + 32 * ((delta / 4) % 0x4000) + 0x8_0000 * (bit % 32) + 0x100_0000 * (nz % 2) + 0x200_0000 * 0x1b
    + 0x8000_0000 * (size % 2)
  }

  function AssembleAdr(kind: int, rd: int, delta: int): word
  {
    rd % 32 + 32 * ((delta / 4) % 0x8_0000) + 0x100_0000 * 0x10 + 0x2000_0000 * (delta % 4) + 0x8000_0000 * (kind % 2)
  }

  function AssembleAdd32(rd: int, rn: int, imm: int): word
  {
    rd % 32 + 32 * (rn % 32) + 0x400 * (imm % 0x1000) + 0x100_0000 * 0x11
  }

  function AssembleMov(size: int, kind: int, rd: int, imm: int, shift: int): word
  {
    rd % 32 + 32 * (imm % 0x1_0000) + 0x20_0000 * (shift % 4) + 0x80_0000 * 0x25 + 0x2000_0000 * (kind % 4)
    + 0x8000_0000 * (size % 2)
  }

  lemma BccFields(condition: int, delta: int)
    ensures var w := AssembleBcc(condition, delta);
            IsBcond(w) && w % 16 == condition % 16 && Imm19(w) == (delta / 4) % 0x8_0000
  {
    BccPacked(condition % 16, (delta / 4) % 0x8_0000);
  }

  lemma BccPacked(condition: int, imm: int)
    requires 0 <= condition < 16 && 0 <= imm < 0x8_0000
    ensures var w := condition + 32 * imm + 0x100_0000 * 0x54;
            0 <= w < TWO32 && IsBcond(w) && w % 16 == condition && Imm19(w) == imm
  {
    var w := condition + 32 * imm + 0x100_0000 * 0x54;
    assert w / 32 == imm + 0x8_0000 * 0x54 && w / 16 == 2 * (imm + 0x8_0000 * 0x54);
  }

  lemma BranchFields(link: bool, delta: int)
    ensures var w := AssembleBranch(link, delta);
            (if link then IsBl(w) else IsB(w)) && Imm26(w) == (delta / 4) % 0x400_0000
  {
  }

  lemma BrFields(rn: int, link: bool)
    ensures var w := AssembleBr(rn, link);
            (if link then IsBlr(w) else IsBr(w)) && Rn(w) == rn % 32
  {
  }

  lemma CbzFields(size: int, nz: int, rt: int, delta: int)
    ensures var w := AssembleCbz(size, nz, rt, delta);
            IsCbz(w) && Rd(w) == rt % 32 && Bit24(w) == nz % 2 && Bit31(w) == size % 2
            && Imm19(w) == (delta / 4) % 0x8_0000
  {
    CbzPacked(size % 2, nz % 2, rt % 32, (delta / 4) % 0x8_0000);
  }

  lemma CbzPacked(size: int, nz: int, rt: int, imm: int)
    requires 0 <= size < 2 && 0 <= nz < 2 && 0 <= rt < 32 && 0 <= imm < 0x8_0000
    ensures var w := rt + 32 * imm + 0x100_0000 * nz + 0x200_0000 * 0x1a + 0x8000_0000 * size;
            && 0 <= w < TWO32 && IsCbz(w) && Rd(w) == rt && Bit24(w) == nz && Bit31(w) == size && Imm19(w) == imm
  {
    var w := rt + 32 * imm + 0x100_0000 * nz + 0x200_0000 * 0x1a + 0x8000_0000 * size;
    assert w / 0x200_0000 == 0x1a + 64 * size;
    assert w / 0x100_0000 == nz + 2 * (0x1a + 64 * size);
    assert w / 32 == imm + 0x8_0000 * (nz + 2 * (0x1a + 64 * size));
  }

  lemma TbzFields(size: int, nz: int, rt: int, bit: int, delta: int)
    ensures var w := AssembleTbz(size, nz, rt, bit, delta);
            && IsTbz(w) && Rd(w) == rt % 32 && Bit24(w) == nz % 2 && Bit31(w) == size % 2
            && Bits19(w) == bit % 32 && Imm14(w) == (delta / 4) % 0x4000
  {
    TbzPacked(size % 2, nz % 2, rt % 32, bit % 32, (delta / 4) % 0x4000);
  }

  lemma TbzPacked(size: int, nz: int, rt: int, bit: int, imm: int)
    requires 0 <= size < 2 && 0 <= nz < 2 && 0 <= rt < 32 && 0 <= bit < 32 && 0 <= imm < 0x4000
    ensures var w := rt + 32 * imm + 0x8_0000 * bit + 0x100_0000 * nz + 0x200_0000 * 0x1b + 0x8000_0000 * size;
            && 0 <= w < TWO32 && IsTbz(w) && Rd(w) == rt && Bit24(w) == nz && Bit31(w) == size && Bits19(w) == bit
            && Imm14(w) == imm
  {
    var w := rt + 32 * imm + 0x8_0000 * bit + 0x100_0000 * nz + 0x200_0000 * 0x1b + 0x8000_0000 * size;
    assert w / 0x200_0000 == 0x1b + 64 * size;
    assert w / 0x100_0000 == nz + 2 * (0x1b + 64 * size);
    assert w / 0x8_0000 == bit + 32 * (nz + 2 * (0x1b + 64 * size));
    assert w / 32 == imm + 0x4000 * (bit + 32 * (nz + 2 * (0x1b + 64 * size)));
  }

  lemma AdrFields(kind: int, rd: int, delta: int)
    ensures var w := AssembleAdr(kind, rd, delta);
            (if kind % 2 == 0 then IsAdr(w) else IsAdrp(w)) && Rd(w) == rd % 32 && Imm21(w) == delta % 0x20_0000
  {
    var hi, lo := (delta / 4) % 0x8_0000, delta % 4;
    AdrPacked(kind % 2, rd % 32, hi, lo);
    assert delta == 4 * (0x8_0000 * ((delta / 4) / 0x8_0000) + hi) + lo;
  }

  lemma AdrPacked(kind: int, rd: int, hi: int, lo: int)
    requires 0 <= kind < 2 && 0 <= rd < 32 && 0 <= hi < 0x8_0000 && 0 <= lo < 4
    ensures var w := rd + 32 * hi + 0x100_0000 * 0x10 + 0x2000_0000 * lo + 0x8000_0000 * kind;
            && 0 <= w < TWO32 && (if kind == 0 then IsAdr(w) else IsAdrp(w))
            && Rd(w) == rd && Imm19(w) == hi && (w / 0x2000_0000) % 4 == lo
  {
  }

  lemma AddFields(rd: int, rn: int, imm: int)
    ensures var w := AssembleAdd32(rd, rn, imm);
            IsAddImm(w) && Bit31(w) == 0 && Rd(w) == rd % 32 && Rn(w) == rn % 32 && Imm12(w) == imm % 0x1000
  {
    AddPacked(rd % 32, rn % 32, imm % 0x1000);
  }

  lemma AddPacked(rd: int, rn: int, imm: int)
    requires 0 <= rd < 32 && 0 <= rn < 32 && 0 <= imm < 0x1000
    ensures var w := rd + 32 * rn + 0x400 * imm + 0x100_0000 * 0x11;
            0 <= w < TWO32 && IsAddImm(w) && Bit31(w) == 0 && Rd(w) == rd && Rn(w) == rn && Imm12(w) == imm
  {
    var w := rd + 32 * rn + 0x400 * imm + 0x100_0000 * 0x11;
    assert w / 0x400 == imm + 0x4000 * 0x11 && w / 32 == rn + 32 * (imm + 0x4000 * 0x11);
    assert w / 0x40_0000 == 4 * 0x11 && w / 0x100_0000 == 0x11;
  }

  lemma MovFields(size: int, kind: int, rd: int, imm: int, shift: int)
    ensures var w := AssembleMov(size, kind, rd, imm, shift);
            && Rd(w) == rd % 32 && Imm16(w) == imm % 0x1_0000 && Halfword(w) == shift % 4
            && (size % 2 == 1 ==>
                  (kind % 4 == 0 <==> IsMovn64(w)) && (kind % 4 == 2 <==> IsMovz64(w))
                  && (kind % 4 == 3 <==> IsMovk64(w)))
            && (size % 2 == 0 && kind % 4 == 0 && shift % 4 < 2 ==> IsMovn32(w))
  {
    MovPacked(size % 2, kind % 4, rd % 32, imm % 0x1_0000, shift % 4);
  }

  lemma MovPacked(size: int, kind: int, rd: int, imm: int, shift: int)
    requires 0 <= size < 2 && 0 <= kind < 4 && 0 <= rd < 32 && 0 <= imm < 0x1_0000 && 0 <= shift < 4
    ensures var w := rd + 32 * imm + 0x20_0000 * shift + 0x80_0000 * 0x25 + 0x2000_0000 * kind + 0x8000_0000 * size;
            && 0 <= w < TWO32 && Rd(w) == rd && Imm16(w) == imm && Halfword(w) == shift
            && (size == 1 ==>
                  (kind == 0 <==> IsMovn64(w)) && (kind == 2 <==> IsMovz64(w)) && (kind == 3 <==> IsMovk64(w)))
            && (size == 0 && kind == 0 && shift < 2 ==> IsMovn32(w))
  {
    var top := 0x25 + 64 * kind + 256 * size;
    var w := rd + 32 * imm + 0x20_0000 * shift + 0x80_0000 * top;
    assert w / 0x80_0000 == top && w / 0x20_0000 == shift + 4 * top && w / 32 == imm + 0x1_0000 * (shift + 4 * top);
    assert w / 0x40_0000 == 2 * top + shift / 2;
  }

  function AssembleLdr(size: int, fpNeon: int, rt: int, delta: int): word
  {
    rt % 32 + 32 * ((delta / 4) % 0x8_0000) + 0x400_0000 * (fpNeon % 2) + 0x800_0000 * 3 + 0x4000_0000 * (size % 4)
  }

  lemma LdrFields(size: int, fpNeon: int, rt: int, delta: int)
    ensures Imm19(AssembleLdr(size, fpNeon, rt, delta)) == (delta / 4) % 0x8_0000
  {
    var imm, top := (delta / 4) % 0x8_0000, 4 * (fpNeon % 2) + 8 * 3 + 64 * (size % 4);
    assert AssembleLdr(size, fpNeon, rt, delta) == rt % 32 + 32 * (imm + 0x8_0000 * top);
  }
}

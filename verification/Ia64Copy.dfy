/** What a copied bundle does, read by the architecture's own instruction formats. */
module Ia64Copy {
  import opened Options
  import opened Division
  import opened Ia64Isa
  import opened Ia64

  // ---------------------------------------------------------------- reading a bundle

  lemma SlotZeroRead(w: Wide)
    ensures Slot(w, 0) == Inst(w, 0) && Number(w) % 32 == Template(w)
  {
    var q := w.lo / 32;
    Euclid(Number(w), 32, q + 0x800_0000_0000_0000 * w.hi, w.lo % 32);
    Euclid(q + 0x800_0000_0000_0000 * w.hi, TWO41, q / TWO41 + 0x4_0000 * w.hi, q % TWO41);
  }

  lemma SlotOneRead(w: Wide)
    ensures Slot(w, 1) == Inst(w, 1)
  {
    var q, r := w.hi / 0x80_0000, w.hi % 0x80_0000;
    var a, b := w.lo / 0x4000_0000_0000, w.lo % 0x4000_0000_0000;
    Euclid(Number(w), 0x4000_0000_0000, a + 0x4_0000 * w.hi, b);
    Euclid(a + 0x4_0000 * w.hi, TWO41, q, a + 0x4_0000 * r);
  }

  lemma SlotTwoRead(w: Wide)
    ensures Slot(w, 2) == Inst(w, 2)
  {
    var q, r := w.hi / 0x80_0000, w.hi % 0x80_0000;
    Euclid(Number(w), 0x80_0000 * TWO64, q, w.lo + TWO64 * r);
  }

  /** The copier's view of a bundle is the architecture's. */
  lemma SlotRead(w: Wide, k: nat)
    requires k < 3
    ensures Slot(w, k) == Inst(w, k) && SlotUnit(w, k) == UnitOf(w, k) && Number(w) % 32 == Template(w)
  {
    hide Slot, Inst, Number, Template;
    SlotZeroRead(w);
    SlotOneRead(w);
    SlotTwoRead(w);
    UnitsRead(Template(w));
  }

  lemma UnitsRead(template: int)
    ensures SlotUnits(template) == Units(template)
  {
  }

  lemma FieldsRead(i: int)
    requires 0 <= i < TWO41
    ensures Opcode(i) == Major(i) && X3(i) == Minor(i) && SignBit(i) == Sign(i)
    ensures X1(i) == 0 && X6(i) == 8 <==> (i / 0x800_0000) % 128 == 8
  {
    var q := i / 0x800_0000;
    DivideTwice(i, 0x800_0000, 64);
    assert i / 0x2_0000_0000 == q / 64;
    SevenBits(q);
  }

  lemma SevenBits(q: int)
    ensures (q / 64) % 2 == 0 && q % 64 == 8 <==> q % 128 == 8
  {
  }

  /** The copier finds an instruction IP-relative exactly when its format has a displacement, and reads
      the displacement the format defines. */
  lemma Recognized(unit: Unit, i: int, ip: u64)
    requires 0 <= i < TWO41
    ensures FormOf(unit, i).Absolute? <==> FormatOf(unit, i).None?
    ensures FormatOf(unit, i).Some? ==> TargetOf(FormOf(unit, i), i, ip) == Target(FormatOf(unit, i).value, i, ip)
  {
    hide Wrap;
    FieldsRead(i);
    hide Opcode, X3, X1, X6, Major, Minor, SignBit, Sign;
  }

  lemma RecognizedAt(w: Wide, k: nat, ip: u64)
    requires k < 3
    ensures FormAt(w, k).Absolute? <==> FormatAt(w, k).None?
    ensures FormatAt(w, k).Some? ==>
              TargetOf(FormAt(w, k), Inst(w, k), ip) == Target(FormatAt(w, k).value, Slot(w, k), ip)
  {
    hide FormOf, FormatOf, Inst, Slot, UnitOf, SlotUnit, TargetOf, Target;
    SlotRead(w, k);
    InstRange(w, k);
    Recognized(UnitOf(w, k), Inst(w, k), ip);
  }

  lemma {:induction false} CountRead(w: Wide, k: nat)
    requires k <= 3
    ensures RelativeBefore(w, k) == IslandsBefore(w, k)
  {
    hide FormAt, FormatAt;
    if k > 0 {
      RecognizedAt(w, k - 1, 0);
      CountRead(w, k - 1);
    }
  }

  // ---------------------------------------------------------------- re-aimed instructions

  lemma SignKept(i: int, n: int)
    requires n / 0x2_0000_0000 == i / 0x2_0000_0000
    ensures SignBit(n) == SignBit(i)
  {
    DivideTwice(i, 0x2_0000_0000, 8);
    DivideTwice(n, 0x2_0000_0000, 8);
  }

  lemma RestB(i: int, v: int, sign: int)
    requires 0 <= i < TWO41 && 0 <= sign < 2
    ensures var n := PutSign(PutB(i, v), sign);
            n - 0x2000 * FieldB(n) - 0x10_0000_0000 * SignBit(n)
            == i - 0x2000 * FieldB(i) - 0x10_0000_0000 * SignBit(i)
  {
    hide SignBit, FieldB, SameBeside;
    ReaimedB(i, v, sign);
    PutBFacts(i, v);
    SignKept(i, PutB(i, v));
  }

  lemma RestA(i: int, v: int, sign: int)
    requires 0 <= i < TWO41 && 0 <= sign < 2
    ensures var n := PutSign(PutA(i, v), sign);
            n - 64 * FieldA(n) - 0x10_0000_0000 * SignBit(n) == i - 64 * FieldA(i) - 0x10_0000_0000 * SignBit(i)
  {
    hide SignBit, FieldA, SameBeside;
    ReaimedA(i, v, sign);
    PutAFacts(i, v);
    TopBits(i, PutA(i, v));
    SignKept(i, PutA(i, v));
  }

  lemma Rest13And7(i: int, v: int, u: int, sign: int)
    requires 0 <= i < TWO41 && 0 <= sign < 2
    ensures var n := PutSign(Put13c(Put7a(i, v), u), sign);
            n - 64 * Imm7a(n) - 0x10_0000 * Imm13c(n) - 0x10_0000_0000 * SignBit(n)
            == i - 64 * Imm7a(i) - 0x10_0000 * Imm13c(i) - 0x10_0000_0000 * SignBit(i)
  {
    hide SignBit, Imm7a, Imm13c, SameBeside, Bits;
    var m := Put7a(i, v);
    Reaimed13And7(i, v, u, sign);
    Put7aFacts(i, v);
    Put13cFacts(m, u);
    MiddleBits(i, m);
    SignKept(i, m);
    SignKept(m, Put13c(m, u));
    Imm13Kept(i, m);
  }

  lemma Imm13Kept(i: int, m: int)
    requires m / 0x2000 == i / 0x2000
    ensures Imm13c(m) == Imm13c(i)
  {
    DivideTwice(i, 0x2000, 128);
    DivideTwice(m, 0x2000, 128);
  }

  lemma RestForm(format: Format, i: int)
    ensures format in {M20, M21, I20} ==>
              Rest(format, i) == i - 64 * Imm7a(i) - 0x10_0000 * Imm13c(i) - 0x10_0000_0000 * SignBit(i)
    ensures format == F14 ==> Rest(format, i) == i - 64 * FieldA(i) - 0x10_0000_0000 * SignBit(i)
    ensures format in {M22, M23, B1, B3} ==> Rest(format, i) == i - 0x2000 * FieldB(i) - 0x10_0000_0000 * SignBit(i)
  {
  }

  /** How the copier's three displacement forms spread over the formats. */
  lemma FormRead(unit: Unit, i: int)
    requires 0 <= i < TWO41 && FormatOf(unit, i).Some?
    ensures var form, format := FormOf(unit, i), FormatOf(unit, i).value;
            && (form.Imm13And7? <==> format in {M20, M21, I20}) && (form.Imm20a? <==> format == F14)
            && (form.Imm20b? <==> format in {M22, M23, B1, B3})
  {
    FieldsRead(i);
    hide Opcode, X3, X1, X6, Major, Minor, SignBit, Sign;
  }

  lemma FormatKept(unit: Unit, i: int, n: int)
    requires 0 <= i < TWO41 && 0 <= n < TWO41 && SameBeside(FormOf(unit, i), i, n)
    ensures FormatOf(unit, n) == FormatOf(unit, i)
  {
    FieldsRead(i);
    FieldsRead(n);
    X6Kept(i, n);
    OpcodeKept(i, n);
    hide Opcode, X3, X1, X6, SignBit, Sign, Bits, Minor;
  }

  /** Re-aiming keeps the format and every bit beside the displacement. */
  lemma ReaimedRest(unit: Unit, i: int, dest: u64, extra: u64)
    requires 0 <= i < TWO41 && dest % 16 == 0 && extra % 16 == 0 && FormatOf(unit, i).Some?
    ensures var n, format := Reaimed(FormOf(unit, i), i, dest, extra), FormatOf(unit, i).value;
            && 0 <= n < TWO41 && FormatOf(unit, n) == Some(format) && Rest(format, n) == Rest(format, i)
            && (Target(format, n, dest) == extra <==> InReach(dest, extra))
  {
    hide FormOf, FormatOf, SameBeside, Rest, Target, TargetOf, InReach, Wrap, PutSign, PutA, PutB, Put7a, Put13c,
      SignBit, FieldA, FieldB, Imm7a, Imm13c;
    var form, format := FormOf(unit, i), FormatOf(unit, i).value;
    var n := Reaimed(form, i, dest, extra);
    var delta, sign := Wrap(extra - dest), if extra < dest then 1 else 0;
    Recognized(unit, i, dest);
    ReaimedReaches(unit, i, dest, extra);
    FormatKept(unit, i, n);
    FormRead(unit, i);
    Recognized(unit, n, dest);
    RestForm(format, i);
    RestForm(format, n);
    match form {
      case Imm13And7 => Rest13And7(i, delta / 16, delta / 0x800, sign);
      case Imm20a => RestA(i, delta / 16, sign);
      case Imm20b => RestB(i, delta / 16, sign);
      case Absolute =>
    }
  }

  // ---------------------------------------------------------------- long branches

  lemma LongRead(w: Wide)
    ensures LongBranch(w) <==> HoldsBrl(w)
    ensures IsLong(w) <==> UnitOf(w, 1).L?
  {
    hide Slot, Inst, Number, UnitOf, SlotUnit;
    SlotRead(w, 1);
    SlotRead(w, 2);
    LongMajor(w);
    LongUnit(w);
  }

  lemma LongMajor(w: Wide)
    ensures var major := Major(Inst(w, 2));
            (major == 0xc || major == 0xd <==> w.hi / 0x2000_0000_0000_0000 == 6)
            && (major == 6 <==> w.hi / 0x1000_0000_0000_0000 == 6)
  {
    DivideTwice(w.hi, 0x80_0000, 0x20_0000_0000);
    assert w.hi / 0x2000_0000_0000_0000 == (w.hi / 0x1000_0000_0000_0000) / 2;
  }

  lemma LongUnit(w: Wide)
    ensures UnitOf(w, 1).L? <==> (w.lo / 2) % 16 == 2
  {
    var t := w.lo % 32;
    assert (w.lo / 2) % 16 == t / 2;
  }

  lemma LongTargetRead(w: Wide, ip: u64)
    ensures LongTarget(w, ip) == BrlTarget(w, ip)
  {
    hide Slot, Wrap, Inst;
    SlotRead(w, 1);
    SlotRead(w, 2);
    LowRead(w);
    HighRead(w);
    SignRead(w);
  }

  lemma LowRead(w: Wide)
    ensures (Inst(w, 2) / 0x2000) % 0x10_0000 == (w.hi / 0x10_0000_0000) % 0x10_0000
  {
    DivideTwice(w.hi, 0x80_0000, 0x2000);
  }

  lemma HighRead(w: Wide)
    ensures Inst(w, 1) / 4 == w.lo / 0x1_0000_0000_0000 + 0x1_0000 * (w.hi % 0x80_0000)
  {
    var a := w.lo / 0x4000_0000_0000;
    assert w.lo / 0x1_0000_0000_0000 == a / 4;
    Euclid(Inst(w, 1), 4, a / 4 + 0x1_0000 * (w.hi % 0x80_0000), a % 4);
  }

  lemma SignRead(w: Wide)
    ensures Sign(Inst(w, 2)) == (w.hi / 0x800_0000_0000_0000) % 2
  {
    DivideTwice(w.hi, 0x80_0000, 0x10_0000_0000);
  }

  // ---------------------------------------------------------------- a copied bundle

  /** Copying a bundle, slot by slot: an instruction without a displacement is the same instruction;
      one with a displacement keeps its format and every other bit, and its target is its own island
      exactly when that lies within 16 MB of the copy; a long branch keeps its target. The islands follow
      one another downwards from `extra`. */
  lemma CopyDecoded(src: Wide, ip: u64, dest: u64, extra: u64, slot: nat)
    requires slot < 3 && ip % 16 == 0 && dest % 16 == 0 && extra % 16 == 0
    ensures var w := Copied(src, ip, dest, extra);
            var island := Wrap(extra - 16 * RelativeBefore(src, slot));
            && Number(w) % 32 == Number(src) % 32
            && (FormatAt(src, slot).None? && (slot == 0 || !LongBranch(src)) ==> Slot(w, slot) == Slot(src, slot))
            && (LongBranch(src) ==> LongBranch(w) && LongTarget(w, dest) == LongTarget(src, ip))
            && (FormatAt(src, slot).Some? ==>
                  && FormatAt(w, slot) == FormatAt(src, slot)
                  && var format := FormatAt(src, slot).value;
                  && Rest(format, Slot(w, slot)) == Rest(format, Slot(src, slot))
                  && (Target(format, Slot(w, slot), dest) == island <==> InReach(dest, island)))
  {
    hide Inst, Slot, UnitOf, SlotUnit, Number, Template, FormOf, FormatOf, Rest, Target, TargetOf, InReach, IslandAt,
      IslandsBefore, RelativeBefore, Copied, IsBrl, SameBeside, SameBesideBrl, LongTarget, BrlTarget, LongBranch,
      HoldsBrl, Reaimed;
    var w := Copied(src, ip, dest, extra);
    CopyKept(src, ip, dest, extra, slot);
    SlotRead(src, slot);
    SlotRead(w, slot);
    RecognizedAt(src, slot, ip);
    CountRead(src, slot);
    LongRead(src);
    LongCopied(src, ip, dest, extra);
    IslandAddress(extra, RelativeBefore(src, slot));
    if FormatAt(src, slot).Some? { CopiedSlot(src, ip, dest, extra, slot); }
  }

  lemma LongCopied(src: Wide, ip: u64, dest: u64, extra: u64)
    requires ip % 16 == 0 && dest % 16 == 0 && extra % 16 == 0
    ensures LongBranch(src) ==>
              var w := Copied(src, ip, dest, extra);
              LongBranch(w) && LongTarget(w, dest) == LongTarget(src, ip)
  {
    hide Inst, Slot, UnitOf, SlotUnit, Number, LongTarget, BrlTarget, LongBranch, HoldsBrl, Copied;
    LongRead(src);
    if HoldsBrl(src) {
      var w := Copied(src, ip, dest, extra);
      CopiedBrl(src, ip, dest, extra);
      StillBrl(src, ip, dest, extra);
      LongRead(w);
      LongTargetRead(src, ip);
      LongTargetRead(w, dest);
    }
  }

  lemma StillBrl(src: Wide, ip: u64, dest: u64, extra: u64)
    requires HoldsBrl(src)
    ensures HoldsBrl(Copied(src, ip, dest, extra))
  {
    hide Inst, FormAt, Relocated, IsBrl, WithBrlImm, Units, BrlTarget, Template;
    var w := Relocated(src, src, dest, extra, 3);
    BrlSlots(src);
    RelocatedSlots(src, dest, extra, 2);
    BrlBySlot(src);
    BrlBySlot(w);
    BrlKept(w, Wrap(BrlTarget(src, ip) - dest));
  }

  lemma BrlBySlot(w: Wide)
    ensures HoldsBrl(w) <==> UnitOf(w, 1).L? && (Major(Inst(w, 2)) == 0xc || Major(Inst(w, 2)) == 0xd)
  {
    hide Inst, UnitOf;
    LongMajor(w);
    LongUnit(w);
  }

  /** What `RelocateInstruction` leaves in a bundle-relative slot. */
  lemma SlotOfCopy(src: Wide, ip: u64, dest: u64, extra: u64, slot: nat)
    requires slot < 3 && !FormAt(src, slot).Absolute?
    ensures var w := Copied(src, ip, dest, extra);
            UnitOf(w, slot) == UnitOf(src, slot) && Inst(w, slot) == SlotCopied(src, dest, extra, slot)
  {
    hide Inst, FormAt, Relocated, IsBrl, WithBrlImm, Units, BrlTarget, Template, SlotCopied;
    var w := Relocated(src, src, dest, extra, 3);
    RelocatedSlots(src, dest, extra, slot);
    BrlKept(w, Wrap(BrlTarget(src, ip) - dest));
    if UnitOf(src, 1).L? { BrlSlots(src); }
  }

  lemma CopiedSlot(src: Wide, ip: u64, dest: u64, extra: u64, slot: nat)
    requires slot < 3 && dest % 16 == 0 && extra % 16 == 0 && FormatAt(src, slot).Some?
    ensures var w := Copied(src, ip, dest, extra);
            var island := IslandAt(extra, RelativeBefore(src, slot));
            && FormatAt(w, slot) == FormatAt(src, slot)
            && var format := FormatAt(src, slot).value;
            && Rest(format, Slot(w, slot)) == Rest(format, Slot(src, slot))
            && (Target(format, Slot(w, slot), dest) == island <==> InReach(dest, island))
  {
    hide Inst, Slot, UnitOf, SlotUnit, Number, Template, FormOf, FormatOf, Rest, Target, InReach, IslandAt,
      IslandsBefore, RelativeBefore, Copied, Reaimed;
    var w := Copied(src, ip, dest, extra);
    var island := IslandAt(extra, IslandsBefore(src, slot));
    SlotRead(src, slot);
    SlotRead(w, slot);
    RecognizedAt(src, slot, ip);
    CountRead(src, slot);
    InstRange(src, slot);
    SlotOfCopy(src, ip, dest, extra, slot);
    IslandAligned(extra, IslandsBefore(src, slot));
    ReaimedRest(UnitOf(src, slot), Inst(src, slot), dest, island);
  }

  /** The island of each instruction with a displacement holds a long branch to that instruction's target;
      the others stay as they were. */
  lemma IslandsDecoded(src: Wide, ip: u64, extra: u64, pool: seq<Wide>, slot: nat)
    requires slot < 3 && ip % 16 == 0 && extra % 16 == 0 && |pool| == 3
    ensures var n, r := RelativeBefore(src, slot), Filled(src, ip, extra, pool, 3);
            && n < 3
            && (FormatAt(src, slot).Some? ==>
                  LongBranch(r[n]) && LongTarget(r[n], Wrap(extra - 16 * n)) ==
                                      Target(FormatAt(src, slot).value, Slot(src, slot), ip))
    ensures forall k :: RelativeBefore(src, 3) <= k < 3 ==> Filled(src, ip, extra, pool, 3)[k] == pool[k]
  {
    hide Inst, Slot, UnitOf, SlotUnit, FormAt, FormatAt, FormatOf, Target, TargetOf, IslandAt, IslandsBefore,
      RelativeBefore, Filled, IsBrl, LongTarget, BrlTarget, LongBranch;
    var n, r := RelativeBefore(src, slot), Filled(src, ip, extra, pool, 3);
    CountRead(src, slot);
    CountRead(src, 3);
    RecognizedAt(src, slot, ip);
    IslandsFilled(src, ip, extra, pool, slot);
    LongIff(r[n]);
    IslandAddress(extra, n);
    LongTargetRead(r[n], IslandAt(extra, n));
  }

  lemma IslandAddress(extra: u64, k: int)
    ensures IslandAt(extra, k) == Wrap(extra - 16 * k)
  {
  }

  lemma LongIff(w: Wide)
    ensures LongBranch(w) <==> IsBrl(w)
  {
    hide Slot, Inst, UnitOf, Number;
    LongRead(w);
    LongUnit(w);
  }

  // ---------------------------------------------------------------- the global pointer

  /** The bundle written for a global pointer moves it into register 1, its low four bits apart, and what
      is taken for such a bundle is one, with the value read from it. */
  lemma GpDecoded(w: Wide, gp: u64)
    ensures IsMovlGp(w) ==> LongMove(w, 1) && LongImmediate(w) == GetMovlGp(w)
    ensures LongMove(MovlGp(gp), 1) && LongImmediate(MovlGp(gp)) == gp - gp % 16
  {
    hide MovlGp, GetMovlGp, LongMove, LongImmediate, IsMovlGp;
    GpRoundTrip(gp);
    GpRead(w);
    GpRead(MovlGp(gp));
  }

  lemma GpRead(w: Wide)
    ensures IsMovlGp(w) ==> LongMove(w, 1) && LongImmediate(w) == GetMovlGp(w)
  {
    hide Slot, Inst, Number, UnitOf, SlotUnit;
    SlotRead(w, 1);
    SlotRead(w, 2);
    LongMajor(w);
    LongUnit(w);
    GpTemplate(w);
    GpFields(w);
    GpMoreFields(w);
    SignRead(w);
    SlotOneParts(w);
  }

  lemma GpTemplate(w: Wide)
    ensures (w.lo / 2) % 0x2000_0000_0000 == 0x8000_0002 ==> (w.lo / 2) % 16 == 2
  {
    var q := w.lo / 2;
    var t := q / 0x2000_0000_0000;
    if q % 0x2000_0000_0000 == 0x8000_0002 { Euclid(q, 16, 0x200_0000_0000 * t + 0x800_0000, 2); }
  }

  lemma GpFields(w: Wide)
    ensures (Inst(w, 2) / 0x2000) % 128 == (w.hi / 0x10_0000_0000) % 128
    ensures (Inst(w, 2) / 0x800_0000) % 512 == (w.hi / 0x4_0000_0000_0000) % 512
    ensures (Inst(w, 2) / 0x40_0000) % 32 == (w.hi / 0x2000_0000_0000) % 32
  {
    DivideTwice(w.hi, 0x80_0000, 0x2000);
    DivideTwice(w.hi, 0x80_0000, 0x800_0000);
    DivideTwice(w.hi, 0x80_0000, 0x40_0000);
  }

  lemma GpMoreFields(w: Wide)
    ensures (Inst(w, 2) / 0x20_0000) % 2 == (w.hi / 0x1000_0000_0000) % 2
    ensures (Inst(w, 2) / 0x10_0000) % 2 == (w.hi / 0x800_0000_0000) % 2
    ensures (w.hi / 0x80_0000) % 0x2000 == 0x40 ==> (Inst(w, 2) / 64) % 128 == 1
  {
    DivideTwice(w.hi, 0x80_0000, 0x20_0000);
    DivideTwice(w.hi, 0x80_0000, 0x10_0000);
    var x := w.hi / 0x80_0000;
    if x % 0x2000 == 0x40 {
      Euclid(x, 64, 1 + 128 * (x / 0x2000), 0);
      Euclid(1 + 128 * (x / 0x2000), 128, x / 0x2000, 1);
    }
  }

  lemma SlotOneParts(w: Wide)
    ensures Inst(w, 1) == w.lo / 0x4000_0000_0000 + 0x4_0000 * (w.hi % 0x80_0000)
  {
  }
}

/** IA-64 bundles (struct DETOUR_IA64_BUNDLE): three 41-bit instructions and a template in 128 bits.
    Copying a bundle re-aims its IP-relative instructions at islands, bundles holding a long branch to
    the original target. Bit fields are quotients and remainders by powers of two. */
module Ia64 {
  import opened Division
  import opened Ia64Isa

  // ------------------------------------------------------------------------------- the slots

  function Template(w: Wide): int { w.lo % 32 }

  function Inst(w: Wide, slot: int): int
  {
    if slot == 0 then (w.lo / 32) % TWO41
    else if slot == 1 then w.lo / 0x4000_0000_0000 + (w.hi % 0x80_0000) * 0x4_0000
    else w.hi / 0x80_0000
  }

  function WithInst(w: Wide, slot: int, i: int): Wide
  {
    var x := i % TWO41;
    if slot == 0 then w.(lo := w.lo % 32 + 32 * x + 0x4000_0000_0000 * (w.lo / 0x4000_0000_0000))
    else if slot == 1 then
      Wide(w.lo % 0x4000_0000_0000 + 0x4000_0000_0000 * (x % 0x4_0000), x / 0x4_0000 + 0x80_0000 * (w.hi / 0x80_0000))
    else w.(hi := w.hi % 0x80_0000 + 0x80_0000 * x)
  }

  lemma SlotSet(w: Wide, slot: int, i: int)
    requires 0 <= slot < 3
    ensures Inst(WithInst(w, slot, i), slot) == i % TWO41
    ensures Template(WithInst(w, slot, i)) == Template(w)
  {
    hide Template;
    SlotZero(w, i);
    SlotOne(w, i);
    SlotTwo(w, i);
  }

  /** Setting one slot leaves the template and the other slots as they were. */
  lemma SlotOthers(w: Wide, slot: int, i: int, other: int)
    requires 0 <= slot < 3 && 0 <= other < 3 && slot != other
    ensures Inst(WithInst(w, slot, i), other) == Inst(w, other)
  {
    hide Inst, WithInst, Template;
    SlotZero(w, i);
    SlotOne(w, i);
    SlotTwo(w, i);
  }

  lemma SlotZero(w: Wide, i: int)
    ensures var n := WithInst(w, 0, i);
            Inst(n, 0) == i % TWO41 && Inst(n, 1) == Inst(w, 1) && Inst(n, 2) == Inst(w, 2)
            && Template(n) == Template(w)
  {
    var x, top := i % TWO41, w.lo / 0x4000_0000_0000;
    var n := w.lo % 32 + 32 * x + 0x4000_0000_0000 * top;
    assert n / 32 == x + TWO41 * top;
  }

  lemma SlotOne(w: Wide, i: int)
    ensures var n := WithInst(w, 1, i);
            Inst(n, 1) == i % TWO41 && Inst(n, 0) == Inst(w, 0) && Inst(n, 2) == Inst(w, 2)
            && Template(n) == Template(w)
  {
    var x := i % TWO41;
    var low, top := w.lo % 0x4000_0000_0000, w.lo / 0x4000_0000_0000;
    var n := low + 0x4000_0000_0000 * (x % 0x4_0000);
    FieldShift(low, n, 32, TWO41, x % 0x4_0000);
    FieldShift(low, w.lo, 32, TWO41, top);
    Euclid(n, 0x4000_0000_0000, x % 0x4_0000, low);
    Euclid(x / 0x4_0000 + 0x80_0000 * (w.hi / 0x80_0000), 0x80_0000, w.hi / 0x80_0000, x / 0x4_0000);
  }

  lemma SlotTwo(w: Wide, i: int)
    ensures var n := WithInst(w, 2, i);
            Inst(n, 2) == i % TWO41 && Inst(n, 0) == Inst(w, 0) && Inst(n, 1) == Inst(w, 1)
            && Template(n) == Template(w)
  {
  }

  lemma InstRange(w: Wide, slot: int)
    requires 0 <= slot < 3
    ensures 0 <= Inst(w, slot) < TWO41
  {
  }

  // -------------------------------------------------------------------- IP-relative encodings

  /** How an instruction holds its displacement; branch prediction hints are not considered. */
  datatype Form = Absolute | Imm13And7 | Imm20a | Imm20b

  function Opcode(i: int): int { (i / 0x20_0000_0000) % 16 }

  function X3(i: int): int { (i / 0x2_0000_0000) % 8 }

  function X1(i: int): int { (i / 0x2_0000_0000) % 2 }

  function X6(i: int): int { (i / 0x800_0000) % 64 }

  function SignBit(i: int): int { (i / 0x10_0000_0000) % 2 }

  function Imm7a(i: int): int { (i / 64) % 128 }

  function Imm13c(i: int): int { (i / 0x10_0000) % 0x2000 }

  function FieldA(i: int): int { (i / 64) % 0x10_0000 }

  function FieldB(i: int): int { (i / 0x2000) % 0x10_0000 }

  function FormOf(unit: Unit, i: int): Form
  {
    match unit
    case F => if Opcode(i) == 0 && X1(i) == 0 && X6(i) == 8 then Imm20a else Absolute
    case M =>
      if Opcode(i) == 1 && (X3(i) == 1 || X3(i) == 3) then Imm13And7
      else if Opcode(i) == 0 && 4 <= X3(i) <= 7 then Imm20b
      else Absolute
    case I => if Opcode(i) == 0 && X3(i) == 1 then Imm13And7 else Absolute
    case B => if Opcode(i) == 4 || Opcode(i) == 5 then Imm20b else Absolute
    case _ => Absolute
  }

  /** The displacement of an instruction, in bundles: 21 bits, signed. */
  function Displacement(form: Form, i: int): int
  {
    var field := match form
      case Imm13And7 => 128 * Imm13c(i) + Imm7a(i)
      case Imm20a => FieldA(i)
      case _ => FieldB(i);
    if SignBit(i) == 0 then field else field - 0x10_0000
  }

  function TargetOf(form: Form, i: int, ip: u64): u64 { Wrap(ip + 16 * Displacement(form, i)) }

  function PutSign(i: int, v: int): int { i - 0x10_0000_0000 * SignBit(i) + 0x10_0000_0000 * (v % 2) }

  function Put7a(i: int, v: int): int { i - 64 * Imm7a(i) + 64 * (v % 128) }

  function Put13c(i: int, v: int): int { i - 0x10_0000 * Imm13c(i) + 0x10_0000 * (v % 0x2000) }

  function PutA(i: int, v: int): int { i - 64 * FieldA(i) + 64 * (v % 0x10_0000) }

  function PutB(i: int, v: int): int { i - 0x2000 * FieldB(i) + 0x2000 * (v % 0x10_0000) }

  /** The instruction re-aimed from `dest` at the bundle `extra`. */
  function Reaimed(form: Form, i: int, dest: u64, extra: u64): int
  {
    var delta := Wrap(extra - dest);
    var sign := if extra < dest then 1 else 0;
    match form
    case Imm13And7 => PutSign(Put13c(Put7a(i, delta / 16), delta / 0x800), sign)
    case Imm20a => PutSign(PutA(i, delta / 16), sign)
    case _ => PutSign(PutB(i, delta / 16), sign)
  }

  /** Bits `[lo, hi)`, given as powers of two. */
  function Bits(i: int, lo: int, width: int): int
    requires lo > 0 && width > 0
  {
    (i / lo) % width
  }

  /** Every bit outside the displacement is the same. */
  predicate SameBeside(form: Form, i: int, n: int)
  {
    && n / 0x20_0000_0000 == i / 0x20_0000_0000 && X3(n) == X3(i)
    && match form
       case Imm13And7 => n % 64 == i % 64 && Bits(n, 0x2000, 128) == Bits(i, 0x2000, 128)
       case Imm20a => n % 64 == i % 64 && Bits(n, 0x400_0000, 128) == Bits(i, 0x400_0000, 128)
       case Imm20b => n % 0x2000 == i % 0x2000
       case Absolute => n == i
  }

  /** A field is set, the bits on either side of it are kept. */
  lemma PutFacts(i: int, v: int)
    requires 0 <= i < TWO41
    ensures var n := PutSign(i, v);
            0 <= n < TWO41 && n / 0x20_0000_0000 == i / 0x20_0000_0000 && n % 0x10_0000_0000 == i % 0x10_0000_0000
            && SignBit(n) == v % 2
  {
    var hi := i / 0x20_0000_0000;
    assert i == 0x20_0000_0000 * hi + 0x10_0000_0000 * SignBit(i) + i % 0x10_0000_0000;
  }

  lemma PutAFacts(i: int, v: int)
    requires 0 <= i < TWO41
    ensures var n := PutA(i, v);
            0 <= n < TWO41 && n / 0x400_0000 == i / 0x400_0000 && FieldA(n) == v % 0x10_0000 && n % 64 == i % 64
  {
    var hi := i / 0x400_0000;
    assert i == 0x400_0000 * hi + 64 * FieldA(i) + i % 64;
    assert PutA(i, v) / 64 == 0x10_0000 * hi + v % 0x10_0000;
  }

  lemma PutBFacts(i: int, v: int)
    requires 0 <= i < TWO41
    ensures var n := PutB(i, v);
            0 <= n < TWO41 && n / 0x2_0000_0000 == i / 0x2_0000_0000 && FieldB(n) == v % 0x10_0000
            && n % 0x2000 == i % 0x2000
  {
    var hi := i / 0x2_0000_0000;
    assert i == 0x2_0000_0000 * hi + 0x2000 * FieldB(i) + i % 0x2000;
    assert PutB(i, v) / 0x2000 == 0x10_0000 * hi + v % 0x10_0000;
  }

  lemma Put7aFacts(i: int, v: int)
    requires 0 <= i < TWO41
    ensures var n := Put7a(i, v); 0 <= n < TWO41 && n / 0x2000 == i / 0x2000 && Imm7a(n) == v % 128 && n % 64 == i % 64
  {
    var hi := i / 0x2000;
    assert i == 0x2000 * hi + 64 * Imm7a(i) + i % 64;
    assert Put7a(i, v) / 64 == 128 * hi + v % 128;
  }

  lemma Put13cFacts(i: int, v: int)
    requires 0 <= i < TWO41
    ensures var n := Put13c(i, v);
            0 <= n < TWO41 && n / 0x2_0000_0000 == i / 0x2_0000_0000 && Imm13c(n) == v % 0x2000
            && n % 0x10_0000 == i % 0x10_0000
  {
    var hi := i / 0x2_0000_0000;
    assert i == 0x2_0000_0000 * hi + 0x10_0000 * Imm13c(i) + i % 0x10_0000;
    assert Put13c(i, v) / 0x10_0000 == 0x2000 * hi + v % 0x2000;
  }

  /** Numbers that agree below bit 36 agree in every field there. */
  lemma LowBits(m: int, n: int)
    requires m % 0x10_0000_0000 == n % 0x10_0000_0000
    ensures FieldA(n) == FieldA(m) && FieldB(n) == FieldB(m) && Imm7a(n) == Imm7a(m) && Imm13c(n) == Imm13c(m)
            && X3(n) == X3(m)
    ensures n % 64 == m % 64 && n % 0x2000 == m % 0x2000
    ensures Bits(n, 0x2000, 128) == Bits(m, 0x2000, 128) && Bits(n, 0x400_0000, 128) == Bits(m, 0x400_0000, 128)
  {
    hide FieldA, FieldB, Imm7a, Imm13c, X3, Bits;
    var d := m / 0x10_0000_0000 - n / 0x10_0000_0000;
    assert m == n + 0x10_0000_0000 * d;
    LowFromSix(n, m, d);
    LowFromThirteen(n, m, d);
    LowFromTwenty(n, m, d);
    LowFromTwentySix(n, m, d);
    LowFromThirtyThree(n, m, d);
  }

  lemma LowFromSix(n: int, m: int, d: int)
    requires m == n + 0x10_0000_0000 * d
    ensures FieldA(n) == FieldA(m) && Imm7a(n) == Imm7a(m) && n % 64 == m % 64
  {
    FieldShift(n, m, 64, 0x10_0000, 0x400 * d);
    FieldShift(n, m, 64, 128, 0x80_0000 * d);
  }

  lemma LowFromThirteen(n: int, m: int, d: int)
    requires m == n + 0x10_0000_0000 * d
    ensures FieldB(n) == FieldB(m) && n % 0x2000 == m % 0x2000 && Bits(n, 0x2000, 128) == Bits(m, 0x2000, 128)
  {
    FieldShift(n, m, 0x2000, 0x10_0000, 8 * d);
    FieldShift(n, m, 0x2000, 128, 0x1_0000 * d);
  }

  lemma LowFromTwenty(n: int, m: int, d: int)
    requires m == n + 0x10_0000_0000 * d
    ensures Imm13c(n) == Imm13c(m)
  {
    FieldShift(n, m, 0x10_0000, 0x2000, 8 * d);
  }

  lemma LowFromTwentySix(n: int, m: int, d: int)
    requires m == n + 0x10_0000_0000 * d
    ensures Bits(n, 0x400_0000, 128) == Bits(m, 0x400_0000, 128)
  {
    FieldShift(n, m, 0x400_0000, 128, 8 * d);
  }

  lemma LowFromThirtyThree(n: int, m: int, d: int)
    requires m == n + 0x10_0000_0000 * d
    ensures X3(n) == X3(m)
  {
    FieldShift(n, m, 0x2_0000_0000, 8, d);
  }

  lemma HighBits(i: int, m: int)
    requires m / 0x2_0000_0000 == i / 0x2_0000_0000
    ensures m / 0x20_0000_0000 == i / 0x20_0000_0000 && X3(m) == X3(i)
  {
    var q, r := m / 0x2_0000_0000, i / 0x2_0000_0000;
    assert m / 0x20_0000_0000 == q / 16 && i / 0x20_0000_0000 == r / 16;
  }

  lemma TopBits(i: int, m: int)
    requires m / 0x400_0000 == i / 0x400_0000
    ensures m / 0x2_0000_0000 == i / 0x2_0000_0000 && Bits(m, 0x400_0000, 128) == Bits(i, 0x400_0000, 128)
  {
    assert m / 0x2_0000_0000 == (m / 0x400_0000) / 128 && i / 0x2_0000_0000 == (i / 0x400_0000) / 128;
  }

  lemma ReaimedA(i: int, v: int, sign: int)
    requires 0 <= i < TWO41 && 0 <= sign < 2
    ensures var n := PutSign(PutA(i, v), sign);
            0 <= n < TWO41 && FieldA(n) == v % 0x10_0000 && SignBit(n) == sign && SameBeside(Imm20a, i, n)
  {
    hide PutA, PutSign, FieldA, SignBit, X3, Bits, FieldB, Imm7a, Imm13c;
    var m := PutA(i, v);
    PutAFacts(i, v);
    PutFacts(m, sign);
    LowBits(m, PutSign(m, sign));
    TopBits(i, m);
    HighBits(i, m);
  }

  lemma ReaimedB(i: int, v: int, sign: int)
    requires 0 <= i < TWO41 && 0 <= sign < 2
    ensures var n := PutSign(PutB(i, v), sign);
            0 <= n < TWO41 && FieldB(n) == v % 0x10_0000 && SignBit(n) == sign && SameBeside(Imm20b, i, n)
  {
    hide PutB, PutSign, FieldB, SignBit, X3, Bits, FieldA, Imm7a, Imm13c;
    var m := PutB(i, v);
    PutBFacts(i, v);
    PutFacts(m, sign);
    LowBits(m, PutSign(m, sign));
    HighBits(i, m);
  }

  lemma MiddleBits(i: int, m: int)
    ensures m / 0x2000 == i / 0x2000 ==>
              m / 0x2_0000_0000 == i / 0x2_0000_0000 && Bits(m, 0x2000, 128) == Bits(i, 0x2000, 128)
    ensures m % 0x10_0000 == i % 0x10_0000 ==>
              m % 64 == i % 64 && Imm7a(m) == Imm7a(i) && Bits(m, 0x2000, 128) == Bits(i, 0x2000, 128)
  {
    hide Bits, Imm7a;
    if m / 0x2000 == i / 0x2000 { SameAbove(i, m); }
    if m % 0x10_0000 == i % 0x10_0000 { SameBelow(i, m, m / 0x10_0000 - i / 0x10_0000); }
  }

  lemma SameAbove(i: int, m: int)
    requires m / 0x2000 == i / 0x2000
    ensures m / 0x2_0000_0000 == i / 0x2_0000_0000 && Bits(m, 0x2000, 128) == Bits(i, 0x2000, 128)
  {
    DivideTwice(m, 0x2000, 0x10_0000);
    DivideTwice(i, 0x2000, 0x10_0000);
  }

  lemma SameBelow(i: int, m: int, d: int)
    requires m == i + 0x10_0000 * d
    ensures m % 64 == i % 64 && Imm7a(m) == Imm7a(i) && Bits(m, 0x2000, 128) == Bits(i, 0x2000, 128)
  {
    FieldShift(i, m, 64, 128, 128 * d);
    FieldShift(i, m, 0x2000, 128, d);
  }

  lemma Reaimed13And7(i: int, v: int, u: int, sign: int)
    requires 0 <= i < TWO41 && 0 <= sign < 2
    ensures var n := PutSign(Put13c(Put7a(i, v), u), sign);
            && 0 <= n < TWO41 && Imm7a(n) == v % 128 && Imm13c(n) == u % 0x2000 && SignBit(n) == sign
            && SameBeside(Imm13And7, i, n)
  {
    hide Put7a, Put13c, PutSign, FieldA, FieldB, SignBit, X3, Bits, Imm7a, Imm13c;
    var m := Put7a(i, v);
    var k := Put13c(m, u);
    Put7aFacts(i, v);
    Put13cFacts(m, u);
    PutFacts(k, sign);
    MiddleBits(i, m);
    MiddleBits(m, k);
    LowBits(k, PutSign(k, sign));
    HighBits(m, k);
    HighBits(i, m);
  }

  /** The distance an IP-relative instruction at `dest` can reach. */
  predicate InReach(dest: u64, extra: u64) { -0x100_0000 <= extra - dest < 0x100_0000 }

  lemma FormKept(unit: Unit, i: int, n: int)
    requires SameBeside(FormOf(unit, i), i, n)
    ensures FormOf(unit, n) == FormOf(unit, i)
  {
    OpcodeKept(i, n);
    X6Kept(i, n);
    hide Opcode, X3, X6, X1, Bits;
    if FormOf(unit, i).Absolute? { assert n == i; }
  }

  lemma OpcodeKept(i: int, n: int)
    ensures n / 0x20_0000_0000 == i / 0x20_0000_0000 ==> Opcode(n) == Opcode(i)
    ensures X3(n) == X3(i) ==> X1(n) == X1(i)
  {
    LowOfThree(n / 0x2_0000_0000);
    LowOfThree(i / 0x2_0000_0000);
  }

  lemma LowOfThree(q: int)
    ensures q % 2 == (q % 8) % 2
  {
  }

  lemma X6Kept(i: int, n: int)
    ensures Bits(n, 0x400_0000, 128) == Bits(i, 0x400_0000, 128) ==> X6(n) == X6(i)
  {
    X6Of(i);
    X6Of(n);
    hide X6;
  }

  lemma X6Of(i: int)
    ensures X6(i) == ((i / 0x400_0000) % 128) / 2
  {
    var q := i / 0x400_0000;
    assert i / 0x800_0000 == q / 2;
    HalfOf(q);
  }

  lemma HalfOf(q: int)
    ensures (q / 2) % 64 == (q % 128) / 2
  {
    var k, r := q / 128, q % 128;
    assert q == 128 * k + r && q / 2 == 64 * k + r / 2;
  }

  lemma DeltaParts(dest: u64, extra: u64)
    requires dest % 16 == 0 && extra % 16 == 0
    ensures var delta := Wrap(extra - dest);
            && (delta / 16) % 0x10_0000 == ((extra - dest) / 16) % 0x10_0000
            && 128 * ((delta / 0x800) % 0x2000) + (delta / 16) % 128 == (delta / 16) % 0x10_0000
  {
    var e := extra - dest;
    var delta := Wrap(e);
    if e >= 0 {
      assert delta == e;
    } else {
      NegativeWraps(e);
      FieldShift(e, delta, 16, 0x10_0000, 0x100_0000_0000);
    }
    SplitTwenty(delta);
  }

  lemma NegativeWraps(e: int)
    requires -TWO64 < e < 0
    ensures Wrap(e) == e + TWO64
  {
    Euclid(e, TWO64, -1, e + TWO64);
  }

  lemma SplitTwenty(delta: u64)
    ensures 128 * ((delta / 0x800) % 0x2000) + (delta / 16) % 128 == (delta / 16) % 0x10_0000
  {
    DivideTwice(delta, 16, 128);
    TwentyBits(delta / 16);
  }

  lemma TwentyBits(q: int)
    ensures 128 * ((q / 128) % 0x2000) + q % 128 == q % 0x10_0000
  {
    var t, u := q / 128, q % 128;
    var v, w := t / 0x2000, t % 0x2000;
    Euclid(q, 0x10_0000, v, 128 * w + u);
  }

  lemma Lands(dest: u64, extra: u64)
    requires dest % 16 == 0 && extra % 16 == 0
    ensures var field := ((extra - dest) / 16) % 0x10_0000;
            var d := if extra < dest then field - 0x10_0000 else field;
            Wrap(dest + 16 * d) == extra <==> InReach(dest, extra)
  {
    var e := extra - dest;
    var q := e / 16;
    assert e == 16 * q;
    var field := q % 0x10_0000;
    var d := if extra < dest then field - 0x10_0000 else field;
    assert 16 * d == e <==> InReach(dest, extra);
    if Wrap(dest + 16 * d) == extra {
      assert (dest + 16 * d - extra) % TWO64 == 0;
    }
  }

  /** Re-aiming changes nothing but the displacement, and reaches the island exactly when it lies within
      16 MB. */
  lemma ReaimedReaches(unit: Unit, i: int, dest: u64, extra: u64)
    requires 0 <= i < TWO41 && dest % 16 == 0 && extra % 16 == 0 && !FormOf(unit, i).Absolute?
    ensures var form := FormOf(unit, i);
            var n := Reaimed(form, i, dest, extra);
            && 0 <= n < TWO41 && SameBeside(form, i, n) && FormOf(unit, n) == form
            && (TargetOf(form, n, dest) == extra <==> InReach(dest, extra))
  {
    hide PutSign, PutA, PutB, Put7a, Put13c, FormOf, SameBeside, FieldA, FieldB, Imm7a, Imm13c, SignBit, Wrap, InReach;
    var form := FormOf(unit, i);
    var delta, sign := Wrap(extra - dest), if extra < dest then 1 else 0;
    DeltaParts(dest, extra);
    Lands(dest, extra);
    match form {
      case Imm13And7 => Reaimed13And7(i, delta / 16, delta / 0x800, sign);
      case Imm20a => ReaimedA(i, delta / 16, sign);
      case Imm20b => ReaimedB(i, delta / 16, sign);
      case Absolute =>
    }
    FormKept(unit, i, Reaimed(form, i, dest, extra));
  }

  // ------------------------------------------------------------------------------ long branch

  /** The 60-bit displacement of a brl, in bytes; bits 0 to 3 are not stored. */
  function BrlImm(w: Wide): int
  {
    16 * ((w.hi / 0x10_0000_0000) % 0x10_0000) + 0x100_0000 * (w.lo / 0x1_0000_0000_0000)
    + 0x100_0000_0000 * (w.hi % 0x80_0000) + 0x8000_0000_0000_0000 * ((w.hi / 0x800_0000_0000_0000) % 2)
  }

  function WithBrlImm(w: Wide, imm: u64): Wide
  {
    Wide(w.lo % 0x1_0000_0000_0000 + 0x1_0000_0000_0000 * ((imm / 0x100_0000) % 0x1_0000),
         (imm / 0x100_0000_0000) % 0x80_0000
         + 0x80_0000 * ((w.hi / 0x80_0000) % 0x2000)
         + 0x10_0000_0000 * ((imm / 16) % 0x10_0000)
         + 0x100_0000_0000_0000 * ((w.hi / 0x100_0000_0000_0000) % 8)
         + 0x800_0000_0000_0000 * (imm / 0x8000_0000_0000_0000)
         + 0x1000_0000_0000_0000 * (w.hi / 0x1000_0000_0000_0000))
  }

  function BrlTarget(w: Wide, ip: u64): u64 { Wrap(ip + BrlImm(w)) }

  const BRL := Wide(0x1_0000_0005, 0xc000_0008_0000_0000)

  /** brl.sptk.few at `ip` to `target`. */
  function BrlTo(ip: u64, target: u64): Wide { WithBrlImm(BRL, Wrap(target - ip)) }

  predicate IsBrl(w: Wide) { (w.lo / 2) % 16 == 2 && w.hi / 0x2000_0000_0000_0000 == 6 }

  lemma BrlFields(w: Wide, imm: u64)
    ensures var n := WithBrlImm(w, imm);
            && n.hi % 0x80_0000 == (imm / 0x100_0000_0000) % 0x80_0000
            && (n.hi / 0x80_0000) % 0x2000 == (w.hi / 0x80_0000) % 0x2000
            && (n.hi / 0x10_0000_0000) % 0x10_0000 == (imm / 16) % 0x10_0000
            && (n.hi / 0x100_0000_0000_0000) % 8 == (w.hi / 0x100_0000_0000_0000) % 8
            && (n.hi / 0x800_0000_0000_0000) % 2 == imm / 0x8000_0000_0000_0000
            && n.hi / 0x1000_0000_0000_0000 == w.hi / 0x1000_0000_0000_0000
            && n.lo / 0x1_0000_0000_0000 == (imm / 0x100_0000) % 0x1_0000
            && n.lo % 0x1_0000_0000_0000 == w.lo % 0x1_0000_0000_0000
  {
    BrlPacked((imm / 0x100_0000_0000) % 0x80_0000, (w.hi / 0x80_0000) % 0x2000, (imm / 16) % 0x10_0000,
              (w.hi / 0x100_0000_0000_0000) % 8, imm / 0x8000_0000_0000_0000, w.hi / 0x1000_0000_0000_0000);
  }

  lemma BrlPacked(a: int, b: int, c: int, d: int, e: int, f: int)
    requires 0 <= a < 0x80_0000 && 0 <= b < 0x2000 && 0 <= c < 0x10_0000 && 0 <= d < 8 && 0 <= e < 2 && 0 <= f < 16
    ensures var n := a + 0x80_0000 * b + 0x10_0000_0000 * c + 0x100_0000_0000_0000 * d + 0x800_0000_0000_0000 * e
                     + 0x1000_0000_0000_0000 * f;
            && 0 <= n < TWO64 && n % 0x80_0000 == a && (n / 0x80_0000) % 0x2000 == b
            && (n / 0x10_0000_0000) % 0x10_0000 == c
            && (n / 0x100_0000_0000_0000) % 8 == d && (n / 0x800_0000_0000_0000) % 2 == e
            && n / 0x1000_0000_0000_0000 == f
  {
    var n := a + 0x80_0000 * b + 0x10_0000_0000 * c + 0x100_0000_0000_0000 * d + 0x800_0000_0000_0000 * e
    + 0x1000_0000_0000_0000 * f;
    var q5 := e + 2 * f;
    var q4 := d + 8 * q5;
    var q3 := c + 0x10_0000 * q4;
    var q2 := b + 0x2000 * q3;
    Euclid(n, 0x80_0000, q2, a);
    Euclid(n, 0x10_0000_0000, q3, a + 0x80_0000 * b);
    Euclid(n, 0x100_0000_0000_0000, q4, a + 0x80_0000 * b + 0x10_0000_0000 * c);
    Euclid(n, 0x800_0000_0000_0000, q5, a + 0x80_0000 * b + 0x10_0000_0000 * c + 0x100_0000_0000_0000 * d);
    Euclid(n, 0x1000_0000_0000_0000, f,
           a + 0x80_0000 * b + 0x10_0000_0000 * c + 0x100_0000_0000_0000 * d + 0x800_0000_0000_0000 * e);
  }

  lemma ImmParts(imm: u64)
    ensures imm == imm % 16 + 16 * ((imm / 16) % 0x10_0000) + 0x100_0000 * ((imm / 0x100_0000) % 0x1_0000)
                   + 0x100_0000_0000 * ((imm / 0x100_0000_0000) % 0x80_0000)
                   + 0x8000_0000_0000_0000 * (imm / 0x8000_0000_0000_0000)
  {
    var q1 := imm / 16;
    var q2 := imm / 0x100_0000;
    var q3 := imm / 0x100_0000_0000;
    assert q2 == q1 / 0x10_0000 && q3 == q2 / 0x1_0000 && imm / 0x8000_0000_0000_0000 == q3 / 0x80_0000;
  }

  /** A displacement is read back without its low four bits, so exactly when it is a whole number of
      bundles. */
  lemma BrlRoundTrip(w: Wide, imm: u64)
    ensures BrlImm(WithBrlImm(w, imm)) == imm - imm % 16
    ensures BrlImm(WithBrlImm(w, imm)) == imm <==> imm % 16 == 0
  {
    hide WithBrlImm;
    BrlFields(w, imm);
    ImmParts(imm);
  }

  /** Islands and re-aimed long branches go where they were asked to go. */
  lemma BrlLands(w: Wide, ip: u64, target: u64)
    requires ip % 16 == 0 && target % 16 == 0
    ensures BrlTarget(WithBrlImm(w, Wrap(target - ip)), ip) == target
  {
    hide WithBrlImm, BrlImm;
    BrlRoundTrip(w, Wrap(target - ip));
    WrapAligned(target, ip);
  }

  lemma WrapAligned(target: u64, ip: u64)
    requires ip % 16 == 0 && target % 16 == 0
    ensures Wrap(target - ip) % 16 == 0 && Wrap(ip + Wrap(target - ip)) == target
  {
    if target >= ip { assert Wrap(target - ip) == target - ip; }
    else { assert Wrap(target - ip) == target - ip + TWO64; }
  }

  lemma BrlKept(w: Wide, imm: u64)
    ensures var n := WithBrlImm(w, imm);
            IsBrl(n) == IsBrl(w) && Template(n) == Template(w) && Inst(n, 0) == Inst(w, 0)
  {
    hide WithBrlImm;
    var n := WithBrlImm(w, imm);
    BrlFields(w, imm);
    assert n.hi / 0x2000_0000_0000_0000 == (n.hi / 0x1000_0000_0000_0000) / 2;
    assert w.hi / 0x2000_0000_0000_0000 == (w.hi / 0x1000_0000_0000_0000) / 2;
    Low48(w.lo, n.lo);
  }

  lemma Low48(a: u64, b: u64)
    requires a % 0x1_0000_0000_0000 == b % 0x1_0000_0000_0000
    ensures a % 32 == b % 32 && (a / 2) % 16 == (b / 2) % 16 && (a / 32) % TWO41 == (b / 32) % TWO41
  {
    var d := a / 0x1_0000_0000_0000 - b / 0x1_0000_0000_0000;
    assert a == b + 0x1_0000_0000_0000 * d;
    FieldShift(b, a, 32, TWO41, 4 * d);
    FieldShift(b, a, 2, 16, 0x800_0000_0000 * d);
  }

  // ------------------------------------------------------------------------- copying a bundle

  /** The units of the 32 templates. */
  function Units(template: int): (Unit, Unit, Unit)
  {
    if 0x00 <= template <= 0x03 then (M, I, I)
    else if 0x04 <= template <= 0x05 then (M, L, X)
    else if 0x08 <= template <= 0x0b then (M, M, I)
    else if 0x0c <= template <= 0x0d then (M, F, I)
    else if 0x0e <= template <= 0x0f then (M, M, F)
    else if 0x10 <= template <= 0x11 then (M, I, B)
    else if 0x12 <= template <= 0x13 then (M, B, B)
    else if 0x16 <= template <= 0x17 then (B, B, B)
    else if 0x18 <= template <= 0x19 then (M, M, B)
    else if 0x1c <= template <= 0x1d then (M, F, B)
    else (NoUnit, NoUnit, NoUnit)
  }

  function UnitOf(w: Wide, slot: int): Unit
  {
    var units := Units(Template(w));
    if slot == 0 then units.0 else if slot == 1 then units.1 else units.2
  }

  function FormAt(w: Wide, slot: int): Form { FormOf(UnitOf(w, slot), Inst(w, slot)) }

  /** The number of IP-relative instructions in slots below `slot`: islands used before it. */
  function IslandsBefore(w: Wide, slot: nat): nat
  {
    if slot == 0 then 0 else IslandsBefore(w, slot - 1) + (if FormAt(w, slot - 1).Absolute? then 0 else 1)
  }

  /** Island `k` of a pool whose first, highest one is at `extra`. */
  function IslandAt(extra: u64, k: int): u64 { Wrap(extra - 16 * k) }

  /** The copy at `dest` after slots below `slot` have been relocated. */
  function Relocated(src: Wide, start: Wide, dest: u64, extra: u64, slot: nat): Wide
  {
    if slot == 0 then start
    else
      var w := Relocated(src, start, dest, extra, slot - 1);
      var form := FormAt(src, slot - 1);
      if form.Absolute? then w
      else WithInst(w, slot - 1,
                    Reaimed(form, Inst(src, slot - 1), dest, IslandAt(extra, IslandsBefore(src, slot - 1))))
  }

  function Copied(src: Wide, ip: u64, dest: u64, extra: u64): Wide
  {
    var w := Relocated(src, src, dest, extra, 3);
    if UnitOf(src, 1).L? && IsBrl(src) then WithBrlImm(w, Wrap(BrlTarget(src, ip) - dest)) else w
  }

  /** The pool of islands after slots below `slot` have been relocated. */
  function Filled(src: Wide, ip: u64, extra: u64, pool: seq<Wide>, slot: nat): (r: seq<Wide>)
    ensures |r| == |pool|
  {
    if slot == 0 then pool
    else
      var r := Filled(src, ip, extra, pool, slot - 1);
      var n := IslandsBefore(src, slot - 1);
      if FormAt(src, slot - 1).Absolute? || n >= |r| then r
      else r[n := BrlTo(IslandAt(extra, n), TargetOf(FormAt(src, slot - 1), Inst(src, slot - 1), ip))]
  }

  function Wides(islands: seq<Bundle>): (r: seq<Wide>)
    requires |islands| == 3
    reads islands
    ensures |r| == 3
  {
    [islands[0].wide, islands[1].wide, islands[2].wide]
  }

  /** A bundle in memory. */
  class Bundle {
    const ip: u64
    var wide: Wide

    constructor (ip: u64, wide: Wide)
      ensures this.ip == ip && this.wide == wide
    {
      this.ip := ip;
      this.wide := wide;
    }

    method SetInstruction(slot: int, instruction: int)
      modifies this
      ensures wide == WithInst(old(wide), slot, instruction)
    {
      wide := WithInst(wide, slot, instruction);
    }

    method SetBrl(target: u64)
      modifies this
      ensures wide == BrlTo(ip, target)
    {
      wide := BRL;
      SetBrlTarget(target);
    }

    method SetBrlTarget(target: u64)
      modifies this
      ensures wide == WithBrlImm(old(wide), Wrap(target - ip))
    {
      wide := WithBrlImm(wide, Wrap(target - ip));
    }

    /** `island` null asks only whether the instruction is IP-relative. */
    method RelocateInstruction(pDst: Bundle, slot: int, island: Bundle?) returns (relative: bool)
      requires 0 <= slot < 3 && island != pDst && island != this && pDst != this
      modifies pDst, island
      ensures relative <==> !FormAt(wide, slot).Absolute?
      ensures pDst.wide == if relative && island != null
                           then WithInst(old(pDst.wide), slot,
                                         Reaimed(FormAt(wide, slot), Inst(wide, slot), pDst.ip, island.ip))
                           else old(pDst.wide)
      ensures island != null ==>
                island.wide == if relative then
                  BrlTo(island.ip, TargetOf(FormAt(wide, slot), Inst(wide, slot), ip)) else old(island.wide)
    {
      hide Reaimed, Inst, FormOf, WithInst, WithBrlImm, TargetOf, Template, Units;
      var instruction := Inst(wide, slot);
      var form := FormOf(UnitOf(wide, slot), instruction);
      if form.Absolute? {
        return false;
      }
      if island != null {
        pDst.SetInstruction(slot, Reaimed(form, instruction, pDst.ip, island.ip));
        island.SetBrl(TargetOf(form, instruction, ip));
      }
      relative := true;
    }

    /** The pool of islands: consecutive bundles downwards from its first. */
    ghost predicate Pool(islands: seq<Bundle>, pDst: Bundle)
    {
      && |islands| == 3 && this != pDst && this !in islands && pDst !in islands
      && islands[0] != islands[1] && islands[1] != islands[2] && islands[0] != islands[2]
      && (forall k :: 0 <= k < 3 ==> islands[k].ip == IslandAt(islands[0].ip, k))
    }

    method RelocateBundle(pDst: Bundle, islands: seq<Bundle>) returns (nExtraBytes: nat)
      requires Pool(islands, pDst)
      modifies pDst, islands
      ensures nExtraBytes == 16 * IslandsBefore(wide, 3) && wide == old(wide)
      ensures pDst.wide == Relocated(wide, old(pDst.wide), pDst.ip, islands[0].ip, 3)
      ensures Wides(islands) == Filled(wide, ip, islands[0].ip, old(Wides(islands)), 3)
    {
      hide Inst, FormAt, WithInst, TargetOf, BrlTo, Reaimed, IslandsBefore, Relocated, Filled, IslandAt;
      ghost var extra, start, pool := islands[0].ip, pDst.wide, Wides(islands);
      nExtraBytes := 0;
      var slot := 0;
      StartForm(wide, ip, start, pDst.ip, extra, pool);
      IslandCount(wide);
      while slot < 3
        invariant 0 <= slot <= 3 && nExtraBytes == 16 * IslandsBefore(wide, slot)
        invariant pDst.wide == Relocated(wide, start, pDst.ip, extra, slot) && wide == old(wide)
        invariant Wides(islands) == Filled(wide, ip, extra, pool, slot)
      {
        StepForm(wide, ip, start, pDst.ip, extra, pool, slot);
        var k := nExtraBytes / 16;
        assert k < 3 && islands[k].ip == IslandAt(extra, k);
        var relative := RelocateInstruction(pDst, slot, islands[k]);
        if relative {
          nExtraBytes := nExtraBytes + 16;
        }
        slot := slot + 1;
      }
    }

    /** Copies this bundle to `pDst` and fills the islands it needs. */
    method Copy(pDst: Bundle, islands: seq<Bundle>) returns (nExtraBytes: nat)
      requires Pool(islands, pDst)
      modifies pDst, islands
      ensures nExtraBytes == 16 * IslandsBefore(wide, 3) && wide == old(wide)
      ensures pDst.wide == Copied(wide, ip, pDst.ip, islands[0].ip)
      ensures Wides(islands) == Filled(wide, ip, islands[0].ip, old(Wides(islands)), 3)
    {
      hide Inst, FormAt, WithBrlImm, UnitOf, IslandsBefore, Relocated, Filled, BrlImm, IsBrl, Wrap, BrlTarget;
      pDst.wide := wide;
      nExtraBytes := RelocateBundle(pDst, islands);
      if UnitOf(wide, 1).L? && IsBrl(wide) {
        pDst.SetBrlTarget(BrlTarget(wide, ip));
      }
    }
  }

  lemma StartForm(src: Wide, ip: u64, start: Wide, dest: u64, extra: u64, pool: seq<Wide>)
    ensures IslandsBefore(src, 0) == 0 && Relocated(src, start, dest, extra, 0) == start
            && Filled(src, ip, extra, pool, 0) == pool
  {
  }

  lemma StepForm(src: Wide, ip: u64, start: Wide, dest: u64, extra: u64, pool: seq<Wide>, slot: nat)
    ensures IslandsBefore(src, slot + 1) == IslandsBefore(src, slot) + (if FormAt(src, slot).Absolute? then 0 else 1)
    ensures var w := Relocated(src, start, dest, extra, slot);
            var form := FormAt(src, slot);
            Relocated(src, start, dest, extra, slot + 1) ==
            if form.Absolute? then w
            else WithInst(w, slot, Reaimed(form, Inst(src, slot), dest, IslandAt(extra, IslandsBefore(src, slot))))
    ensures var r := Filled(src, ip, extra, pool, slot);
            var n := IslandsBefore(src, slot);
            Filled(src, ip, extra, pool, slot + 1) ==
            if FormAt(src, slot).Absolute? || n >= |r| then r
            else r[n := BrlTo(IslandAt(extra, n), TargetOf(FormAt(src, slot), Inst(src, slot), ip))]
  {
    hide Inst, FormAt, WithInst, Reaimed, IslandAt, BrlTo, TargetOf;
  }

  lemma IslandCount(src: Wide)
    ensures forall slot :: 0 <= slot <= 3 ==> IslandsBefore(src, slot) <= slot
  {
    hide FormAt, IslandsBefore;
    StepForm(src, 0, src, 0, 0, [], 0);
    StepForm(src, 0, src, 0, 0, [], 1);
    StepForm(src, 0, src, 0, 0, [], 2);
    StartForm(src, 0, src, 0, 0, []);
  }

  // ----------------------------------------------------------------------- what a copy keeps

  /** The instruction a slot of the copy holds before any brl is re-aimed. */
  function SlotCopied(src: Wide, dest: u64, extra: u64, slot: int): int
    requires slot >= 0
  {
    if FormAt(src, slot).Absolute? then Inst(src, slot)
    else Reaimed(FormAt(src, slot), Inst(src, slot), dest, IslandAt(extra, IslandsBefore(src, slot))) % TWO41
  }

  lemma RelocatedStep(src: Wide, dest: u64, extra: u64, slot: nat, other: int)
    requires slot < 3 && 0 <= other < 3
    ensures var w, n := Relocated(src, src, dest, extra, slot), Relocated(src, src, dest, extra, slot + 1);
            && Template(n) == Template(w) && (other != slot ==> Inst(n, other) == Inst(w, other))
            && (other == slot && FormAt(src, slot).Absolute? ==> Inst(n, slot) == Inst(w, slot))
            && (other == slot && !FormAt(src, slot).Absolute? ==> Inst(n, slot) == SlotCopied(src, dest, extra, slot))
  {
    hide Inst, FormAt, WithInst, Reaimed, IslandAt, Relocated, IslandsBefore, Template;
    var w := Relocated(src, src, dest, extra, slot);
    StepForm(src, 0, src, dest, extra, [], slot);
    var i := Reaimed(FormAt(src, slot), Inst(src, slot), dest, IslandAt(extra, IslandsBefore(src, slot)));
    SlotSet(w, slot, i);
    if other != slot { SlotOthers(w, slot, i, other); }
  }

  lemma RelocatedSlots(src: Wide, dest: u64, extra: u64, slot: nat)
    requires slot < 3
    ensures Template(Relocated(src, src, dest, extra, 3)) == Template(src)
    ensures Inst(Relocated(src, src, dest, extra, 3), slot) == SlotCopied(src, dest, extra, slot)
  {
    hide Inst, FormAt, Reaimed, IslandAt, Relocated, IslandsBefore, Template;
    StartForm(src, 0, src, dest, extra, []);
    RelocatedStep(src, dest, extra, 0, slot);
    RelocatedStep(src, dest, extra, 1, slot);
    RelocatedStep(src, dest, extra, 2, slot);
  }

  /** Long branches stand in slots 1 and 2 of templates 4 and 5, which hold nothing IP-relative. */
  predicate HoldsBrl(w: Wide) { UnitOf(w, 1).L? && IsBrl(w) }

  lemma BrlSlots(w: Wide)
    requires UnitOf(w, 1).L?
    ensures FormAt(w, 1).Absolute? && FormAt(w, 2).Absolute?
  {
    hide Inst, Template;
  }

  lemma IslandAligned(extra: u64, k: int)
    requires extra % 16 == 0
    ensures IslandAt(extra, k) % 16 == 0
  {
  }

  /** Two slots agree in every bit but those of a long branch's displacement: 39 of slot 1, and 20 and
      the sign of slot 2. */
  predicate SameBesideBrl(i1: int, i2: int, n1: int, n2: int)
  {
    && n1 % 4 == i1 % 4
    && n2 % 0x2000 == i2 % 0x2000 && Bits(n2, 0x2_0000_0000, 8) == Bits(i2, 0x2_0000_0000, 8)
    && n2 / 0x20_0000_0000 == i2 / 0x20_0000_0000
  }

  lemma BrlBeside(w: Wide, imm: u64)
    ensures var n := WithBrlImm(w, imm); SameBesideBrl(Inst(w, 1), Inst(w, 2), Inst(n, 1), Inst(n, 2))
  {
    hide WithBrlImm;
    var n := WithBrlImm(w, imm);
    BrlFields(w, imm);
    SlotTwoBits(w);
    SlotTwoBits(n);
    SlotOneBits(w);
    SlotOneBits(n);
  }

  lemma SlotTwoBits(w: Wide)
    ensures Inst(w, 2) == w.hi / 0x80_0000
    ensures Bits(Inst(w, 2), 0x2_0000_0000, 8) == (w.hi / 0x100_0000_0000_0000) % 8
    ensures Inst(w, 2) / 0x20_0000_0000 == w.hi / 0x1000_0000_0000_0000
  {
    DivideTwice(w.hi, 0x80_0000, 0x2_0000_0000);
    DivideTwice(w.hi, 0x80_0000, 0x20_0000_0000);
  }

  lemma SlotOneBits(w: Wide)
    ensures Inst(w, 1) % 4 == (w.lo % 0x1_0000_0000_0000) / 0x4000_0000_0000
  {
    var a, b, r := w.lo / 0x4000_0000_0000, w.lo % 0x4000_0000_0000, w.hi % 0x80_0000;
    Euclid(a, 4, a / 4, a % 4);
    Euclid(Inst(w, 1), 4, a / 4 + 0x1_0000 * r, a % 4);
    Euclid(w.lo, 0x1_0000_0000_0000, a / 4, 0x4000_0000_0000 * (a % 4) + b);
    Euclid(0x4000_0000_0000 * (a % 4) + b, 0x4000_0000_0000, a % 4, b);
  }

  /** Copying a bundle keeps its template and every absolute instruction; an IP-relative instruction
      keeps all bits but its displacement, and reaches its own island exactly when that lies within
      16 MB of the copy; the two slots of a long branch keep all bits but its displacement. */
  lemma CopyKept(src: Wide, ip: u64, dest: u64, extra: u64, slot: nat)
    requires slot < 3 && ip % 16 == 0 && dest % 16 == 0 && extra % 16 == 0
    ensures var w := Copied(src, ip, dest, extra);
            var form := FormAt(src, slot);
            var island := IslandAt(extra, IslandsBefore(src, slot));
            && Template(w) == Template(src)
            && (form.Absolute? && (slot == 0 || !HoldsBrl(src)) ==> Inst(w, slot) == Inst(src, slot))
            && (HoldsBrl(src) ==> SameBesideBrl(Inst(src, 1), Inst(src, 2), Inst(w, 1), Inst(w, 2)))
            && (!form.Absolute? ==>
                  && FormAt(w, slot) == form && SameBeside(form, Inst(src, slot), Inst(w, slot))
                  && (TargetOf(form, Inst(w, slot), dest) == island <==> InReach(dest, island)))
  {
    hide Inst, Reaimed, IslandAt, Relocated, IslandsBefore, Template, IsBrl, WithBrlImm, FormOf, TargetOf,
      SameBeside, SameBesideBrl, Units, BrlImm, InReach;
    var w, form, island := Relocated(src, src, dest, extra, 3), FormAt(src, slot),
                           IslandAt(extra, IslandsBefore(src, slot));
    RelocatedSlots(src, dest, extra, slot);
    IslandAligned(extra, IslandsBefore(src, slot));
    InstRange(src, slot);
    BrlKept(w, Wrap(BrlTarget(src, ip) - dest));
    if HoldsBrl(src) {
      BrlSlots(src);
      RelocatedSlots(src, dest, extra, 1);
      RelocatedSlots(src, dest, extra, 2);
      BrlBeside(w, Wrap(BrlTarget(src, ip) - dest));
    }
    if !form.Absolute? { ReaimedReaches(UnitOf(src, slot), Inst(src, slot), dest, island); }
  }

  lemma BrlDistance(src: Wide, ip: u64)
    requires ip % 16 == 0
    ensures BrlTarget(src, ip) % 16 == 0
  {
    assert BrlImm(src) % 16 == 0;
  }

  /** A copied long branch goes where the original went. */
  lemma CopiedBrl(src: Wide, ip: u64, dest: u64, extra: u64)
    requires ip % 16 == 0 && dest % 16 == 0 && HoldsBrl(src)
    ensures BrlTarget(Copied(src, ip, dest, extra), dest) == BrlTarget(src, ip)
  {
    hide BrlImm, WithBrlImm, Relocated, IsBrl, UnitOf, BrlTarget, Wrap;
    BrlDistance(src, ip);
    BrlLands(Relocated(src, src, dest, extra, 3), dest, BrlTarget(src, ip));
  }

  lemma FilledStep(src: Wide, ip: u64, extra: u64, pool: seq<Wide>, slot: nat, k: nat)
    requires slot < 3 && |pool| == 3 && k < 3
    ensures var r, n := Filled(src, ip, extra, pool, slot), Filled(src, ip, extra, pool, slot + 1);
            n[k] == if !FormAt(src, slot).Absolute? && k == IslandsBefore(src, slot)
            then BrlTo(IslandAt(extra, k), TargetOf(FormAt(src, slot), Inst(src, slot), ip)) else r[k]
  {
    hide Inst, FormAt, IslandAt, IslandsBefore, Filled, BrlTo, TargetOf;
    StepForm(src, ip, src, 0, extra, pool, slot);
  }

  /** The island of each IP-relative instruction holds a long branch to that instruction's original
      target; no two instructions share one, and islands nobody needs are left alone. */
  lemma IslandsFilled(src: Wide, ip: u64, extra: u64, pool: seq<Wide>, slot: nat)
    requires slot < 3 && ip % 16 == 0 && extra % 16 == 0 && |pool| == 3
    ensures var n, r := IslandsBefore(src, slot), Filled(src, ip, extra, pool, 3);
            && n < 3
            && (!FormAt(src, slot).Absolute? ==>
                  IsBrl(r[n]) && BrlTarget(r[n], IslandAt(extra, n)) ==
                                 TargetOf(FormAt(src, slot), Inst(src, slot), ip))
    ensures forall k :: IslandsBefore(src, 3) <= k < 3 ==> Filled(src, ip, extra, pool, 3)[k] == pool[k]
  {
    hide Inst, FormAt, IslandAt, IslandsBefore, Filled, BrlTo, TargetOf, BrlTarget, IsBrl;
    StartForm(src, ip, src, 0, extra, pool);
    IslandCount(src);
    StepForm(src, ip, src, 0, extra, pool, 0);
    StepForm(src, ip, src, 0, extra, pool, 1);
    StepForm(src, ip, src, 0, extra, pool, 2);
    forall k | IslandsBefore(src, 3) <= k < 3 ensures Filled(src, ip, extra, pool, 3)[k] == pool[k] {
      FilledStep(src, ip, extra, pool, 0, k);
      FilledStep(src, ip, extra, pool, 1, k);
      FilledStep(src, ip, extra, pool, 2, k);
    }
    var n := IslandsBefore(src, slot);
    FilledStep(src, ip, extra, pool, 0, n);
    FilledStep(src, ip, extra, pool, 1, n);
    FilledStep(src, ip, extra, pool, 2, n);
    TargetAligned(FormAt(src, slot), Inst(src, slot), ip);
    IslandAligned(extra, n);
    IslandBranch(IslandAt(extra, n), TargetOf(FormAt(src, slot), Inst(src, slot), ip));
  }

  lemma TargetAligned(form: Form, i: int, ip: u64)
    requires ip % 16 == 0
    ensures TargetOf(form, i, ip) % 16 == 0
  {
    hide Displacement;
  }

  lemma IslandBranch(ip: u64, target: u64)
    requires ip % 16 == 0 && target % 16 == 0
    ensures IsBrl(BrlTo(ip, target)) && BrlTarget(BrlTo(ip, target), ip) == target
  {
    hide WithBrlImm, BrlTarget, Wrap;
    BrlLands(BRL, ip, target);
    BrlKept(BRL, Wrap(target - ip));
  }

  // -------------------------------------------------------------------------- global pointer

  /** movl gp = `gp` */
  function MovlGp(gp: u64): Wide
  {
    Wide(0x1_0000_0005 + 0x4000_0000_0000 * ((gp / 0x40_0000) % 0x4_0000),
         0x6000_0000_2000_0000
         + (gp / 0x100_0000_0000) % 0x80_0000
         + 0x100_0000_0000 * ((gp / 16) % 8)
         + 0x1000_0000_0000 * ((gp / 0x20_0000) % 2)
         + 0x2000_0000_0000 * ((gp / 0x1_0000) % 32)
         + 0x4_0000_0000_0000 * ((gp / 128) % 512)
         + 0x800_0000_0000_0000 * (gp / 0x8000_0000_0000_0000))
  }

  function GetMovlGp(w: Wide): int
  {
    (w.hi / 0x10_0000_0000) % 128 + 128 * ((w.hi / 0x4_0000_0000_0000) % 512)
    + 0x1_0000 * ((w.hi / 0x2000_0000_0000) % 32)
    + 0x20_0000 * ((w.hi / 0x1000_0000_0000) % 2) + 0x40_0000 * (w.lo / 0x4000_0000_0000)
    + 0x100_0000_0000 * (w.hi % 0x80_0000) + 0x8000_0000_0000_0000 * ((w.hi / 0x800_0000_0000_0000) % 2)
  }

  predicate IsMovlGp(w: Wide)
  {
    && (w.lo / 2) % 0x2000_0000_0000 == 0x8000_0002
    && w.hi / 0x1000_0000_0000_0000 == 6 && (w.hi / 0x800_0000_0000) % 2 == 0 && (w.hi / 0x80_0000) % 0x2000 == 0x40
  }

  lemma GpPacked(a: int, b: int, c: int, d: int, e: int, f: int)
    requires 0 <= a < 0x80_0000 && 0 <= b < 8 && 0 <= c < 2 && 0 <= d < 32 && 0 <= e < 512 && 0 <= f < 2
    ensures var n := 0x6000_0000_2000_0000 + a + 0x100_0000_0000 * b + 0x1000_0000_0000 * c + 0x2000_0000_0000 * d
                     + 0x4_0000_0000_0000 * e + 0x800_0000_0000_0000 * f;
            && 0 <= n < TWO64 && n % 0x80_0000 == a && (n / 0x10_0000_0000) % 128 == 16 * b
            && (n / 0x1000_0000_0000) % 2 == c
            && (n / 0x2000_0000_0000) % 32 == d && (n / 0x4_0000_0000_0000) % 512 == e
            && (n / 0x800_0000_0000_0000) % 2 == f
            && n / 0x1000_0000_0000_0000 == 6 && (n / 0x800_0000_0000) % 2 == 0 && (n / 0x80_0000) % 0x2000 == 0x40
  {
    var n := 0x6000_0000_2000_0000 + a + 0x100_0000_0000 * b + 0x1000_0000_0000 * c + 0x2000_0000_0000 * d
    + 0x4_0000_0000_0000 * e + 0x800_0000_0000_0000 * f;
    var q6 := f + 2 * 6;
    var q5 := e + 512 * q6;
    var q4 := d + 32 * q5;
    var q3 := c + 2 * q4;
    var q2 := 16 * b + 256 * q3;
    assert n == a + 0x80_0000 * (0x40 + 0x2000 * q2);
    GpQuotients(n, a, 16 * b, c, d, e, q6);
  }

  lemma GpQuotients(n: int, a: int, b: int, c: int, d: int, e: int, q6: int)
    requires 0 <= a < 0x80_0000 && 0 <= b < 128 && 0 <= c < 2 && 0 <= d < 32 && 0 <= e < 512 && 12 <= q6 < 14
    requires n == a + 0x80_0000 * (0x40 + 0x2000 * (b + 256 * (c + 2 * (d + 32 * (e + 512 * q6)))))
    ensures n % 0x80_0000 == a && (n / 0x80_0000) % 0x2000 == 0x40 && (n / 0x10_0000_0000) % 128 == b
            && (n / 0x800_0000_0000) % 2 == 0
    ensures (n / 0x1000_0000_0000) % 2 == c && (n / 0x2000_0000_0000) % 32 == d && (n / 0x4_0000_0000_0000) % 512 == e
    ensures n / 0x800_0000_0000_0000 == q6 && n / 0x1000_0000_0000_0000 == 6
  {
    var q3 := c + 2 * (d + 32 * (e + 512 * q6));
    GpUpper(n / 0x10_0000_0000, b, c, d, e, q6);
    GpLower(n, a, b + 256 * q3);
  }

  lemma GpLower(n: int, a: int, q2: int)
    requires 0 <= a < 0x80_0000 && n == a + 0x80_0000 * (0x40 + 0x2000 * q2)
    ensures n % 0x80_0000 == a && (n / 0x80_0000) % 0x2000 == 0x40 && n / 0x10_0000_0000 == q2
    ensures n / 0x800_0000_0000 == q2 / 128 && n / 0x1000_0000_0000 == q2 / 256 && n / 0x2000_0000_0000 == q2 / 512
    ensures n / 0x4_0000_0000_0000 == q2 / 0x4000 && n / 0x800_0000_0000_0000 == q2 / 0x80_0000
            && n / 0x1000_0000_0000_0000 == q2 / 0x100_0000
  {
    var low := a + 0x2000_0000;
    Euclid(n, 0x10_0000_0000, q2, low);
    Euclid(n, 0x80_0000, 0x40 + 0x2000 * q2, a);
    Euclid(0x40 + 0x2000 * q2, 0x2000, q2, 0x40);
    DivideTwice(n, 0x10_0000_0000, 128);
    DivideTwice(n, 0x10_0000_0000, 256);
    DivideTwice(n, 0x10_0000_0000, 512);
    DivideTwice(n, 0x10_0000_0000, 0x4000);
    DivideTwice(n, 0x10_0000_0000, 0x80_0000);
    DivideTwice(n, 0x10_0000_0000, 0x100_0000);
  }

  lemma GpUpper(q2: int, b: int, c: int, d: int, e: int, q6: int)
    requires 0 <= b < 128 && 0 <= c < 2 && 0 <= d < 32 && 0 <= e < 512 && 12 <= q6 < 14
    ensures q2 == b + 256 * (c + 2 * (d + 32 * (e + 512 * q6))) ==>
              && q2 % 128 == b && (q2 / 128) % 2 == 0 && (q2 / 256) % 2 == c && (q2 / 512) % 32 == d
              && (q2 / 0x4000) % 512 == e && q2 / 0x80_0000 == q6 && q2 / 0x100_0000 == 6
  {
    if q2 == b + 256 * (c + 2 * (d + 32 * (e + 512 * q6))) {
      var q5 := e + 512 * q6;
      var q4 := d + 32 * q5;
      var q3 := c + 2 * q4;
      assert q2 / 128 == 2 * q3 && q2 / 256 == q3 && q2 / 512 == q4 && q2 / 0x4000 == q5;
    }
  }

  lemma GpParts(gp: u64)
    ensures gp == gp % 16 + 16 * ((gp / 16) % 8) + 128 * ((gp / 128) % 512) + 0x1_0000 * ((gp / 0x1_0000) % 32)
                  + 0x20_0000 * ((gp / 0x20_0000) % 2) + 0x40_0000 * ((gp / 0x40_0000) % 0x4_0000)
                  + 0x100_0000_0000 * ((gp / 0x100_0000_0000) % 0x80_0000)
                  + 0x8000_0000_0000_0000 * (gp / 0x8000_0000_0000_0000)
  {
    var q1 := gp / 16;
    var q2 := gp / 128;
    var q3 := gp / 0x1_0000;
    var q4 := gp / 0x20_0000;
    var q5 := gp / 0x40_0000;
    var q6 := gp / 0x100_0000_0000;
    assert q2 == q1 / 8 && q3 == q2 / 512 && q4 == q3 / 32 && q5 == q4 / 2 && q6 == q5 / 0x4_0000
           && gp / 0x8000_0000_0000_0000 == q6 / 0x80_0000;
  }

  /** The global pointer written is read back exactly when it is 16-byte aligned: its low four bits are
      not stored. */
  lemma GpRoundTrip(gp: u64)
    ensures IsMovlGp(MovlGp(gp)) && GetMovlGp(MovlGp(gp)) == gp - gp % 16
    ensures GetMovlGp(MovlGp(gp)) == gp <==> gp % 16 == 0
  {
    GpParts(gp);
    GpPacked((gp / 0x100_0000_0000) % 0x80_0000, (gp / 16) % 8, (gp / 0x20_0000) % 2, (gp / 0x1_0000) % 32,
             (gp / 128) % 512, gp / 0x8000_0000_0000_0000);
    GpLow((gp / 0x40_0000) % 0x4_0000);
  }

  lemma GpLow(a: int)
    requires 0 <= a < 0x4_0000
    ensures var n := 0x1_0000_0005 + 0x4000_0000_0000 * a;
            0 <= n < TWO64 && n / 0x4000_0000_0000 == a && (n / 2) % 0x2000_0000_0000 == 0x8000_0002
  {
    assert (0x1_0000_0005 + 0x4000_0000_0000 * a) / 2 == 0x8000_0002 + 0x2000_0000_0000 * a;
  }
}

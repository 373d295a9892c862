/** Where a 32-bit x86 instruction ends, written from the encoding rules of the architecture (Intel
    64 and IA-32 Software Developer's Manual, volume 2, chapter 2 and the opcode maps of appendix A)
    and not from the copier's tables: legacy prefixes, opcode, mod/rm byte, SIB byte, displacement,
    immediates. VEX, EVEX and the undefined opcodes have no end here. */
module X86Length {
  import opened Options
  import opened Memory
  import opened X86Flow

  /** What follows the opcode: nothing, a mod/rm byte with its addressing form, or the mod/rm byte of a
      move to or from a control, debug or test register, which names a register whatever its mod. */
  datatype Operand = NoOperand | General | Control

  /** An instruction after its prefixes: `opcode` bytes, then the operand, then `imm` bytes. */
  datatype Form = Form(opcode: nat, operand: Operand, imm: nat)

  /** The prefixes seen so far that matter to a length. */
  datatype Flags = Flags(op16: bool, addr16: bool, f2: bool, f3: bool)

  const NO_FLAGS := Flags(false, false, false, false)

  function AfterPrefix(fl: Flags, b: byte): Flags
  {
    Flags(fl.op16 || b == 0x66, fl.addr16 || b == 0x67, fl.f2 || b == 0xf2, fl.f3 || b == 0xf3)
  }

  // ---------------------------------------------------------------------- addressing forms

  /** SIB byte and displacement after the mod/rm byte at `a`, with 32-bit addressing: a SIB byte for rm
      100, four bytes without a base register (101 under mod 00), one under mod 01, four under mod 10. */
  function Tail32(m: Mem, a: nat): nat
  {
    var mod, rm := At(m, a) / 0x40, At(m, a) % 8;
    var base := if rm == 4 then At(m, a + 1) % 8 else rm;
    if mod == 3 then 0
    else (if rm == 4 then 1 else 0) + if mod == 1 then 1 else if mod == 2 || base == 5 then 4 else 0
  }

  /** The same with 16-bit addressing, which has no SIB byte. */
  function Tail16(m: Mem, a: nat): nat
  {
    var mod, rm := At(m, a) / 0x40, At(m, a) % 8;
    if mod == 1 then 1 else if mod == 2 || (mod == 0 && rm == 6) then 2 else 0
  }

  function OperandSize(m: Mem, a: nat, operand: Operand, addr16: bool): nat
  {
    match operand
    case NoOperand => 0
    case General => 1 + if addr16 then Tail16(m, a) else Tail32(m, a)
    case Control => 1
  }

  // ---------------------------------------------------------------------- opcode maps

  predicate OneModRm(op: byte)
  {
    || (op < 0x40 && op % 8 < 4)
    || op in {0x62, 0x63, 0x69, 0x6b, 0xc0, 0xc1, 0xc4, 0xc5, 0xc6, 0xc7, 0xf6, 0xf7, 0xfe, 0xff}
    || 0x80 <= op <= 0x8f || 0xd0 <= op <= 0xd3 || 0xd8 <= op <= 0xdf
  }

  function Word(op16: bool): nat { if op16 then 2 else 4 }

  /** Immediate bytes of a one-byte opcode, displacements of transfers and far pointers included;
      `modRm` is the byte after it, whose reg field tells TEST apart in F6 and F7. */
  function OneImm(op: byte, modRm: byte, fl: Flags): nat
  {
    if op < 0x40 && op % 8 == 4 then 1
    else if op < 0x40 && op % 8 == 5 then Word(fl.op16)
    else if op in {0x68, 0x69, 0x81, 0xa9, 0xc7, 0xe8, 0xe9} || 0xb8 <= op <= 0xbf then Word(fl.op16)
    else if op in {0x6a, 0x6b, 0x80, 0x82, 0x83, 0xa8, 0xc0, 0xc1, 0xc6, 0xcd, 0xd4, 0xd5, 0xeb} then 1
    else if 0x70 <= op <= 0x7f || 0xb0 <= op <= 0xb7 || 0xe0 <= op <= 0xe7 then 1
    else if op == 0x9a || op == 0xea then 2 + Word(fl.op16)
    else if 0xa0 <= op <= 0xa3 then Word(fl.addr16)
    else if op == 0xc2 || op == 0xca then 2
    else if op == 0xc8 then 3
    else if op == 0xf6 && (modRm / 8) % 8 == 0 then 1
    else if op == 0xf7 && (modRm / 8) % 8 == 0 then Word(fl.op16)
    else 0
  }

  predicate Undefined(op: byte)
  {
    op in {0x04, 0x0a, 0x0c, 0x25, 0x27, 0x36, 0x39, 0x3b, 0x3c, 0x3d, 0x3e, 0x3f, 0x7a, 0x7b, 0xb9, 0xff}
  }

  /** Opcodes after 0F that stand alone. */
  predicate TwoAlone(op: byte)
  {
    || 0x05 <= op <= 0x09 || op in {0x0b, 0x0e, 0x37, 0x77} || 0x30 <= op <= 0x35
    || 0xa0 <= op <= 0xa2 || 0xa8 <= op <= 0xaa || 0xc8 <= op <= 0xcf
  }

  /** Opcodes after 0F with a mod/rm byte and one immediate byte. */
  predicate TwoImm8(op: byte)
  {
    op in {0x0f, 0x70, 0x71, 0x72, 0x73, 0xa4, 0xac, 0xba, 0xc2, 0xc4, 0xc5, 0xc6}
  }

  /** The opcode `op` that follows 0F; 38 and 3A escape to a third opcode byte. EXTRQ and INSERTQ exist in
      register form with two immediate bytes; B8 is JMPE with a displacement, and POPCNT under F3. */
  function TwoForm(op: byte, fl: Flags): Option<Form>
  {
    if Undefined(op) then None
    else if TwoAlone(op) then Some(Form(2, NoOperand, 0))
    else if IsNearCond(op) || (op == 0xb8 && !fl.f3) then Some(Form(2, NoOperand, Word(fl.op16)))
    else if op == 0x38 then Some(Form(3, General, 0))
    else if op == 0x3a then Some(Form(3, General, 1))
    else if op == 0x78 && (fl.op16 || fl.f2) then Some(Form(3, NoOperand, 2))
    else if 0x20 <= op <= 0x26 then Some(Form(2, Control, 0))
    else Some(Form(2, General, if TwoImm8(op) then 1 else 0))
  }

  /** XOP instructions: 8F with a map number of 8, 9 or 10 in the next byte, one more byte, an opcode and
      a mod/rm byte. */
  predicate IsXop(modRm: byte) { 8 <= modRm % 0x20 <= 10 }

  function XopForm(modRm: byte): Form
  {
    Form(4, General, if modRm % 0x20 == 8 then 1 else if modRm % 0x20 == 10 then 4 else 0)
  }

  /** The instruction at `a`, whose prefixes end there. */
  function FormAt(m: Mem, a: nat, fl: Flags): Option<Form>
  {
    var op, next := At(m, a), At(m, a + 1);
    if op == 0x0f then TwoForm(next, fl)
    else if op == 0xd6 || (op in {0x62, 0xc4, 0xc5} && next >= 0xc0) then None
    else if op == 0x8f && IsXop(next) then Some(XopForm(next))
    else Some(Form(1, if OneModRm(op) then General else NoOperand, OneImm(op, next, fl)))
  }

  function FormEnd(m: Mem, a: nat, f: Form, addr16: bool): nat
  {
    a + f.opcode + OperandSize(m, a + f.opcode, f.operand, addr16) + f.imm
  }

  function EndFrom(m: Mem, a: nat, fl: Flags): Option<nat>
    decreases |m| - a
  {
    if a >= |m| then None
    else if IsLegacyPrefix(m[a]) then EndFrom(m, a + 1, AfterPrefix(fl, m[a]))
    else
      match FormAt(m, a, fl)
      case None => None
      case Some(f) => Some(FormEnd(m, a, f, fl.addr16))
  }

  /** The address after the instruction at `a`. */
  function EndAt(m: Mem, a: nat): Option<nat> { EndFrom(m, a, NO_FLAGS) }

  // ---------------------------------------------------------------------- misread encodings

  /** mod/rm bytes whose 16-bit form is longer or shorter than their 32-bit form. */
  predicate WidthMatters(modRm: byte)
  {
    var mod, rm := modRm / 0x40, modRm % 8;
    mod == 2 || (mod == 1 && rm == 4) || (mod == 0 && 4 <= rm <= 6)
  }

  /** mod/rm bytes that announce a SIB byte or a displacement in 32-bit addressing. */
  predicate Extended(modRm: byte)
  {
    var mod, rm := modRm / 0x40, modRm % 8;
    mod == 1 || mod == 2 || (mod == 0 && 4 <= rm <= 5)
  }

  predicate FormMisread(m: Mem, a: nat, f: Form, addr16: bool)
  {
    || (f.operand == General && addr16 && WidthMatters(At(m, a + f.opcode)))
    || (f.operand == Control && Extended(At(m, a + f.opcode)))
  }

  /** The encodings whose length a reader gets wrong that knows neither 16-bit addressing nor moves of
      control registers, and so sizes every mod/rm byte as a 32-bit address. */
  predicate MisreadFrom(m: Mem, a: nat, fl: Flags)
    decreases |m| - a
  {
    if a >= |m| then false
    else if IsLegacyPrefix(m[a]) then MisreadFrom(m, a + 1, AfterPrefix(fl, m[a]))
    else
      match FormAt(m, a, fl)
      case None => false
      case Some(f) => FormMisread(m, a, f, fl.addr16)
  }

  predicate Misread(m: Mem, a: nat) { MisreadFrom(m, a, NO_FLAGS) }

  lemma TailWidths(m: Mem, a: nat)
    ensures Tail16(m, a) == Tail32(m, a) <==> !WidthMatters(At(m, a))
    ensures Tail32(m, a) == 0 <==> !Extended(At(m, a))
  {
  }

  // ---------------------------------------------------------------------- locality

  /** The form depends on no byte behind the mod/rm byte. */
  lemma FormLocal(m: Mem, n: Mem, a: nat, fl: Flags)
    requires FormAt(m, a, fl).Some? && At(n, a) == At(m, a)
    requires var f := FormAt(m, a, fl).value;
             (f.opcode > 1 || f.operand != NoOperand ==> At(n, a + 1) == At(m, a + 1))
             && (f.operand != NoOperand ==> At(n, a + f.opcode) == At(m, a + f.opcode))
    ensures FormAt(n, a, fl) == FormAt(m, a, fl)
    ensures var f := FormAt(m, a, fl).value;
            FormMisread(n, a, f, fl.addr16) == FormMisread(m, a, f, fl.addr16)
  {
    hide WidthMatters, Extended, TwoForm;
    FormNeedsNext(At(m, a), At(m, a + 1), At(n, a + 1), fl);
    TwoOpcode(At(m, a + 1), fl);
  }

  lemma FormNeedsNext(op: byte, next: byte, other: byte, fl: Flags)
    ensures !OneModRm(op) ==> OneImm(op, next, fl) == OneImm(op, other, fl)
  {
  }

  lemma TwoOpcode(op: byte, fl: Flags)
    ensures TwoForm(op, fl).Some? ==> TwoForm(op, fl).value.opcode >= 2
  {
  }
}

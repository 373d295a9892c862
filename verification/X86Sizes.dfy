/** The copier consumes one instruction, as the encoding rules end it. */
module X86Sizes {
  import opened Options
  import opened Memory
  import opened X86Flow
  import opened X86Length
  import opened X86Disasm
  import opened X86Relocation

  function Fixed(e: Entry, fl: Flags): nat
    requires e.Bytes?
  {
    if (if e.address then fl.addr16 else fl.op16) then e.fixed16 else e.fixed
  }

  /** Row `e`, applied `lead` bytes into the instruction, gives it the sizes of the form `f`. */
  predicate RowFits(e: Entry, fl: Flags, f: Form, lead: nat)
  {
    && e.Bytes? && lead < f.opcode
    && e.modOffset == (if f.operand == NoOperand then 0 else f.opcode - lead)
    && Fixed(e, fl) == f.opcode - lead + (if f.operand == NoOperand then 0 else 1) + f.imm
  }

  /** The size table and the test of the SIB base add up to the addressing forms. */
  lemma TailRead(m: Mem, a: nat)
    requires a + 1 < |m|
    ensures ModRmSize(m[a]) + (if ModRmSib(m[a]) && m[a + 1] % 8 == 5 then 4 else 0) == Tail32(m, a)
  {
  }

  lemma BytesLength(m: Mem, dst: int, src: nat, e: Entry, fl: Flags, c: Copied)
    requires e.Bytes? && CopyBytes(m, dst, src, e, fl) == Some(c)
    ensures src + c.len <= |m|
    ensures c.len == Fixed(e, fl) + if e.modOffset == 0 then 0 else Tail32(m, src + e.modOffset)
  {
    hide Tail32, ModRmSize, ModRmSib, Displacement, NewOffset, Encode, Fits;
    if e.modOffset > 0 { TailRead(m, src + e.modOffset); }
  }

  lemma OperandRead(m: Mem, a: nat, operand: Operand, addr16: bool)
    ensures operand == General ==>
              (OperandSize(m, a, operand, addr16) == 1 + Tail32(m, a) <==> !(addr16 && WidthMatters(At(m, a))))
    ensures operand == Control ==> (OperandSize(m, a, operand, addr16) == 1 + Tail32(m, a) <==> !Extended(At(m, a)))
  {
    TailWidths(m, a);
  }

  lemma FittingRow(m: Mem, dst: int, a: nat, lead: nat, e: Entry, fl: Flags, f: Form, c: Copied)
    requires RowFits(e, fl, f, lead) && CopyBytes(m, dst, a + lead, e, fl) == Some(c)
    ensures FormEnd(m, a, f, fl.addr16) == a + lead + c.len <==> !FormMisread(m, a, f, fl.addr16)
    ensures f.opcode >= 1 && a + lead + c.len <= |m|
    ensures lead + c.len >= f.opcode + if f.operand == NoOperand then 0 else 1
  {
    hide CopyBytes, Tail32, Tail16, OperandSize, WidthMatters, Extended, Fixed;
    BytesLength(m, dst, a + lead, e, fl, c);
    OperandRead(m, a + f.opcode, f.operand, fl.addr16);
    NoOperandSize(m, a + f.opcode, fl.addr16);
  }

  lemma NoOperandSize(m: Mem, a: nat, addr16: bool)
    ensures OperandSize(m, a, NoOperand, addr16) == 0
  {
  }

  // ---------------------------------------------------------------------- one-byte opcodes

  lemma ImmFlags(op: byte, modRm: byte, fl: Flags)
    requires op != 0xf6 && op != 0xf7
    ensures OneImm(op, modRm, fl)
         == if (if 0xa0 <= op <= 0xa3 then fl.addr16 else fl.op16) then OneImm(op, 0, BOTH_SIZES)
            else OneImm(op, 0, NO_FLAGS)
  {
  }

  lemma OneRowFits(m: Mem, a: nat, e: Entry, fl: Flags)
    requires a < |m| && !IsLegacyPrefix(m[a]) && m[a] != 0x0f
    requires OneSized(m[a], e) && e.Bytes?
    ensures FormAt(m, a, fl).Some? && RowFits(e, fl, FormAt(m, a, fl).value, 0)
  {
    hide OneImm, OneModRm;
    ImmFlags(m[a], At(m, a + 1), fl);
  }

  lemma SubRowFits(m: Mem, a: nat, e: Entry, fl: Flags)
    requires a + 1 < |m| && !IsLegacyPrefix(m[a]) && m[a] != 0x0f
    requires OneSized(m[a], e) && (e.OpF6? || e.OpF7? || e.OpFF? || e.Op8F? || (e.OpVex? && m[a + 1] < 0xc0))
    ensures FormAt(m, a, fl).Some? && RowFits(SubRow(e, m[a + 1], fl), fl, FormAt(m, a, fl).value, 0)
  {
  }

  lemma OneRowOf(t: Tables, b: byte)
    requires TablesOk(t) && !IsLegacyPrefix(b) && b != 0x0f
    ensures OneSized(b, t.One(b)) && !IsPrefixRow(t.One(b)) && !t.One(b).TwoByte?
    ensures t.One(b).Jump? ==> IsShort(b)
    ensures !t.One(b).Op0F78? && !t.One(b).Op0F00? && !t.One(b).Op0FB8?
  {
    assert OneRowOk(b, t.One(b));
    assert OneSized(b, t.One(b));
  }

  lemma JumpEnd(m: Mem, dst: int, a: nat, fl: Flags, c: Copied)
    requires IsShort(At(m, a)) && CopyJump(m, dst, a) == Some(c)
    ensures FormAt(m, a, fl) == Some(Form(1, NoOperand, 1)) && c.len == 2 && a + 2 <= |m|
  {
  }

  lemma EntryCases(t: Tables, m: Mem, dst: int, a: nat, e: Entry, fl: Flags, c: Copied)
    requires a < |m| && !IsPrefixRow(e) && !e.TwoByte? && CopyEntry(t, m, dst, a, e, fl) == Some(c)
    ensures !e.Invalid? && (!e.Bytes? ==> a + 1 < |m| && (e.OpVex? ==> m[a + 1] < 0xc0))
    ensures if e.Bytes? then CopyBytes(m, dst, a, e, fl) == Some(c)
            else if e.Jump? then CopyJump(m, dst, a) == Some(c)
            else CopyBytes(m, dst, a, SubRow(e, m[a + 1], fl), fl) == Some(c)
  {
  }

  /** The instruction at `a`, past its prefixes, ends `len` bytes on unless it is misread. */
  ghost predicate EndsAfter(m: Mem, a: nat, fl: Flags, len: nat)
  {
    && FormAt(m, a, fl).Some?
    && var f := FormAt(m, a, fl).value;
    && a + len <= |m| && f.opcode >= 1 && len >= f.opcode + (if f.operand == NoOperand then 0 else 1)
    && (FormEnd(m, a, f, fl.addr16) == a + len <==> !FormMisread(m, a, f, fl.addr16))
  }

  lemma OneByteRead(t: Tables, m: Mem, dst: int, a: nat, fl: Flags, c: Copied)
    requires TablesOk(t) && a < |m| && !IsLegacyPrefix(m[a]) && m[a] != 0x0f
    requires CopyEntry(t, m, dst, a, t.One(m[a]), fl) == Some(c)
    ensures EndsAfter(m, a, fl, c.len)
  {
    hide TablesOk, CopyEntry, CopyBytes, CopyJump, SubRow, OneSized, RowFits, FormAt, FormEnd, FormMisread, Tables.One;
    var e := t.One(m[a]);
    OneRowOf(t, m[a]);
    EntryCases(t, m, dst, a, e, fl, c);
    if e.Bytes? {
      OneRowFits(m, a, e, fl);
      FittingRow(m, dst, a, 0, e, fl, FormAt(m, a, fl).value, c);
    } else if e.Jump? {
      JumpEnd(m, dst, a, fl, c);
      ShortEnd(m, a, fl);
    } else {
      SubRowFits(m, a, e, fl);
      FittingRow(m, dst, a, 0, SubRow(e, m[a + 1], fl), fl, FormAt(m, a, fl).value, c);
    }
  }

  lemma ShortEnd(m: Mem, a: nat, fl: Flags)
    ensures FormEnd(m, a, Form(1, NoOperand, 1), fl.addr16) == a + 2
    ensures !FormMisread(m, a, Form(1, NoOperand, 1), fl.addr16)
  {
  }

  // ---------------------------------------------------------------------- opcodes after 0F

  lemma TwoFlags(op: byte, fl: Flags)
    requires op != 0x78 && op != 0xb8
    ensures TwoForm(op, fl) == if fl.op16 then TwoForm(op, BOTH_SIZES) else TwoForm(op, NO_FLAGS)
  {
  }

  lemma TwoShape(op: byte)
    requires op != 0x78 && op != 0xb8 && TwoForm(op, NO_FLAGS).Some?
    ensures TwoForm(op, BOTH_SIZES).Some? && TwoForm(op, NO_FLAGS).value.opcode >= 2
    ensures TwoForm(op, BOTH_SIZES).value.(imm := 0) == TwoForm(op, NO_FLAGS).value.(imm := 0)
  {
  }

  lemma TwoRowFits(m: Mem, a: nat, e: Entry, fl: Flags)
    requires a + 1 < |m| && m[a] == 0x0f && TwoSized(m[a + 1], e) && e.Bytes?
    ensures FormAt(m, a, fl).Some? && RowFits(e, fl, FormAt(m, a, fl).value, 1)
  {
    hide TwoForm;
    TwoFlags(m[a + 1], fl);
    TwoShape(m[a + 1]);
  }

  lemma TwoSubRowFits(m: Mem, a: nat, e: Entry, modRm: byte, fl: Flags)
    requires a + 1 < |m| && m[a] == 0x0f && TwoSized(m[a + 1], e) && !e.Bytes? && !e.Invalid?
    ensures FormAt(m, a, fl).Some? && RowFits(SubRow(e, modRm, fl), fl, FormAt(m, a, fl).value, 1)
  {
  }

  lemma TwoRowOf(t: Tables, b: byte)
    requires TablesOk(t)
    ensures TwoSized(b, t.Two(b)) && !IsPrefixRow(t.Two(b)) && !t.Two(b).TwoByte? && !t.Two(b).Jump?
  {
    assert TwoRowOk(b, t.Two(b));
    assert TwoSized(b, t.Two(b));
  }

  lemma TwoByteRead(t: Tables, m: Mem, dst: int, a: nat, fl: Flags, c: Copied)
    requires TablesOk(t) && a < |m| && m[a] == 0x0f
    requires CopyEntry(t, m, dst, a, t.One(m[a]), fl) == Some(c)
    ensures EndsAfter(m, a, fl, c.len)
  {
    hide TablesOk, CopyEntry, CopyBytes, CopyJump, SubRow, TwoSized, RowFits, FormAt, FormEnd, FormMisread, Tables.One,
      Tables.Two, IsLegacyPrefix;
    var inner := TwoByteStep(t, m, dst, a, fl, c);
    var b := m[a + 1];
    var e := t.Two(b);
    TwoRowOf(t, b);
    EntryCases(t, m, dst + 1, a + 1, e, fl, inner);
    if e.Bytes? {
      TwoRowFits(m, a, e, fl);
      FittingRow(m, dst + 1, a, 1, e, fl, FormAt(m, a, fl).value, inner);
    } else {
      TwoSubRowFits(m, a, e, m[a + 2], fl);
      FittingRow(m, dst + 1, a, 1, SubRow(e, m[a + 2], fl), fl, FormAt(m, a, fl).value, inner);
    }
  }

  // ---------------------------------------------------------------------- whole instructions

  /** Whatever is copied is one instruction of the architecture, whole and no more, exactly when it is
      not one of the encodings the tables misread. */
  lemma {:induction false} LengthRead(t: Tables, m: Mem, dst: int, src: nat, fl: Flags, c: Copied)
    requires TablesOk(t) && src < |m| && CopyEntry(t, m, dst, src, t.One(m[src]), fl) == Some(c)
    ensures EndFrom(m, src, fl).Some?
    ensures EndFrom(m, src, fl) == Some(src + c.len) <==> !MisreadFrom(m, src, fl)
    ensures src + c.len <= |m| && c.len >= 1
    decreases |m| - src
  {
    hide TablesOk, CopyEntry, FormAt, FormEnd, FormMisread, Tables.One;
    if IsLegacyPrefix(m[src]) {
      var rest := PrefixStep(t, m, dst, src, fl, c);
      LengthRead(t, m, dst + 1, src + 1, AfterPrefix(fl, m[src]), rest);
    } else if m[src] == 0x0f {
      TwoByteRead(t, m, dst, src, fl, c);
    } else {
      OneByteRead(t, m, dst, src, fl, c);
    }
  }

  lemma LengthReadAt(t: Tables, m: Mem, dst: int, src: nat, c: Copied)
    requires TablesOk(t) && CopyAt(t, m, dst, src) == Some(c)
    ensures EndAt(m, src).Some?
    ensures EndAt(m, src) == Some(src + c.len) <==> !Misread(m, src)
  {
    hide TablesOk, CopyEntry, EndFrom, MisreadFrom, Tables.One;
    LengthRead(t, m, dst, src, NO_FLAGS, c);
  }

  /** Being misread shows in the bytes consumed. */
  lemma {:induction false} MisreadLocal(t: Tables, m: Mem, n: Mem, dst: int, src: nat, fl: Flags, c: Copied)
    requires TablesOk(t) && src < |m| && CopyEntry(t, m, dst, src, t.One(m[src]), fl) == Some(c)
    requires Agree(m, n, src, src + c.len) && c.len >= 1
    ensures MisreadFrom(n, src, fl) == MisreadFrom(m, src, fl)
    decreases |m| - src
  {
    hide TablesOk, CopyEntry, FormAt, FormEnd, FormMisread, Tables.One;
    if IsLegacyPrefix(m[src]) {
      var rest := PrefixStep(t, m, dst, src, fl, c);
      LengthRead(t, m, dst + 1, src + 1, AfterPrefix(fl, m[src]), rest);
      MisreadLocal(t, m, n, dst + 1, src + 1, AfterPrefix(fl, m[src]), rest);
    } else {
      if m[src] == 0x0f {
        TwoByteRead(t, m, dst, src, fl, c);
      } else {
        OneByteRead(t, m, dst, src, fl, c);
      }
      FormBound(m, src, fl);
      FormLocal(m, n, src, fl);
    }
  }

  // ---------------------------------------------------------------------- what is copied at all

  /** Every row sized by the encoding copies, given room behind the instruction. */
  lemma FittingCopied(m: Mem, dst: int, a: nat, lead: nat, e: Entry, fl: Flags, f: Form)
    requires RowFits(e, fl, f, lead) && FormEnd(m, a, f, fl.addr16) + 8 <= |m|
    requires e.relOffset == 0 || (f.operand == NoOperand && f.opcode - lead == e.relOffset && f.imm in {1, 2, 4})
    ensures CopyBytes(m, dst, a + lead, e, fl).Some?
  {
    hide NewOffset, Displacement, Encode, Fits;
    TailBounds(m, a + f.opcode, fl.addr16, f.operand);
    if e.modOffset > 0 { SizeSome(m, a + lead, e, fl); }
  }

  lemma SizeSome(m: Mem, src: nat, e: Entry, fl: Flags)
    requires e.Bytes? && e.modOffset > 0 && src + e.modOffset + 1 < |m|
    ensures BytesSize(m, src, e, fl) == Some(Fixed(e, fl) + Tail32(m, src + e.modOffset))
  {
    hide Tail32, ModRmSize, ModRmSib;
    TailRead(m, src + e.modOffset);
  }

  lemma TailBounds(m: Mem, a: nat, addr16: bool, operand: Operand)
    ensures Tail32(m, a) <= 6 && OperandSize(m, a, operand, addr16) >= if operand == NoOperand then 0 else 1
  {
  }

  lemma RelativeRows(t: Tables, b: byte, next: byte, fl: Flags)
    requires TablesOk(t) && !IsLegacyPrefix(b) && b != 0x0f && t.One(b).Bytes?
    ensures t.One(b).relOffset == 0
            || (t.One(b).relOffset == 1 && b != 0x8f && !OneModRm(b) && OneImm(b, next, fl) in {1, 2, 4})
  {
    hide SizesOk;
    assert OneRowOk(b, t.One(b));
  }

  lemma JumpRow(t: Tables, b: byte)
    requires TablesOk(t) && !IsLegacyPrefix(b) && b != 0x0f
    ensures var e := t.One(b);
            e.Bytes? || e.Jump? || (e.Invalid? && b == 0xd6) || (e.OpVex? && b in {0x62, 0xc4, 0xc5})
            || e.OpF6? || e.OpF7? || e.OpFF? || e.Op8F?
  {
    OneRowOf(t, b);
  }

  lemma FormBound(m: Mem, a: nat, fl: Flags)
    requires FormAt(m, a, fl).Some?
    ensures var f := FormAt(m, a, fl).value;
            1 <= f.opcode && FormEnd(m, a, f, fl.addr16) >= a + f.opcode && (At(m, a) == 0x0f ==> f.opcode >= 2)
  {
    hide OneImm, OneModRm, Tail32, Tail16;
  }

  lemma FormOfOne(m: Mem, a: nat, fl: Flags)
    requires At(m, a) != 0x0f && FormAt(m, a, fl).Some?
    ensures At(m, a) != 0xd6 && (At(m, a) in {0x62, 0xc4, 0xc5} ==> At(m, a + 1) < 0xc0)
    ensures At(m, a) != 0x8f ==>
              FormAt(m, a, fl).value
              == Form(1, if OneModRm(At(m, a)) then General else NoOperand, OneImm(At(m, a), At(m, a + 1), fl))
  {
    hide OneImm, OneModRm;
  }

  lemma OneByteCopied(t: Tables, m: Mem, dst: int, a: nat, fl: Flags)
    requires TablesOk(t) && a < |m| && !IsLegacyPrefix(m[a]) && m[a] != 0x0f
    requires FormAt(m, a, fl).Some? && FormEnd(m, a, FormAt(m, a, fl).value, fl.addr16) + 8 <= |m|
    ensures CopyEntry(t, m, dst, a, t.One(m[a]), fl).Some?
  {
    hide TablesOk, CopyBytes, SubRow, OneSized, FormAt, FormEnd, Tables.One;
    var e := t.One(m[a]);
    OneRowOf(t, m[a]);
    JumpRow(t, m[a]);
    FormBound(m, a, fl);
    FormOfOne(m, a, fl);
    var f := FormAt(m, a, fl).value;
    if e.Bytes? {
      OneRowFits(m, a, e, fl);
      RelativeRows(t, m[a], At(m, a + 1), fl);
      FittingCopied(m, dst, a, 0, e, fl, f);
    } else if !e.Jump? {
      SubRowFits(m, a, e, fl);
      FittingCopied(m, dst, a, 0, SubRow(e, m[a + 1], fl), fl, f);
    }
  }

  lemma TwoRelativeRows(t: Tables, b: byte, fl: Flags)
    requires TablesOk(t) && t.Two(b).Bytes?
    ensures t.Two(b).relOffset == 0
            || (t.Two(b).relOffset == 1 && TwoForm(b, fl) == Some(Form(2, NoOperand, Word(fl.op16))))
    ensures TwoForm(b, fl).None? <==> Undefined(b)
  {
    hide SizesOk;
    assert TwoRowOk(b, t.Two(b));
  }

  lemma TwoByteCopied(t: Tables, m: Mem, dst: int, a: nat, fl: Flags)
    requires TablesOk(t) && a < |m| && m[a] == 0x0f
    requires FormAt(m, a, fl).Some? && FormEnd(m, a, FormAt(m, a, fl).value, fl.addr16) + 8 <= |m|
    ensures CopyEntry(t, m, dst, a, t.One(m[a]), fl).Some?
  {
    hide TablesOk, CopyBytes, SubRow, TwoSized, FormEnd, Tables.One, Tables.Two, TwoForm;
    FormBound(m, a, fl);
    var b := m[a + 1];
    var e := t.Two(b);
    TwoRowOf(t, b);
    EscapeRow(t);
    var f := FormAt(m, a, fl).value;
    if e.Bytes? {
      TwoRowFits(m, a, e, fl);
      TwoRelativeRows(t, b, fl);
      FittingCopied(m, dst + 1, a, 1, e, fl, f);
    } else {
      TwoSpecial(b, e, fl);
      TwoSubRowFits(m, a, e, m[a + 2], fl);
      FittingCopied(m, dst + 1, a, 1, SubRow(e, m[a + 2], fl), fl, f);
    }
  }

  lemma TwoSpecial(b: byte, e: Entry, fl: Flags)
    requires TwoSized(b, e) && TwoForm(b, fl).Some?
    ensures !e.Invalid?
  {
  }

  lemma EscapeRow(t: Tables)
    requires TablesOk(t)
    ensures t.One(0x0f) == TwoByte
  {
    assert OneRowOk(0x0f, t.One(0x0f));
  }

  lemma PrefixRowOf(t: Tables, b: byte, fl: Flags)
    requires TablesOk(t) && IsLegacyPrefix(b)
    ensures IsPrefixRow(t.One(b)) && FlagsAfter(t.One(b), fl) == AfterPrefix(fl, b)
  {
    hide SizesOk;
    assert OneRowOk(b, t.One(b));
  }

  /** Given room behind it, an instruction is copied exactly when the architecture defines it (outside
      VEX and EVEX). */
  lemma CopiedIff(t: Tables, m: Mem, dst: int, src: nat)
    requires TablesOk(t)
    requires EndAt(m, src).Some? ==> EndAt(m, src).value + 8 <= |m|
    ensures CopyAt(t, m, dst, src).Some? <==> EndAt(m, src).Some?
  {
    hide TablesOk, CopyEntry, EndFrom, MisreadFrom, Tables.One;
    if CopyAt(t, m, dst, src).Some? {
      LengthReadAt(t, m, dst, src, CopyAt(t, m, dst, src).value);
    } else if EndAt(m, src).Some? {
      EndInside(m, src);
      Copies(t, m, dst, src, NO_FLAGS);
    }
  }

  lemma EndInside(m: Mem, a: nat)
    requires EndAt(m, a).Some?
    ensures a < |m|
  {
  }

  lemma {:induction false} Copies(t: Tables, m: Mem, dst: int, src: nat, fl: Flags)
    requires TablesOk(t) && src < |m|
    requires EndFrom(m, src, fl).Some? && EndFrom(m, src, fl).value + 8 <= |m|
    ensures CopyEntry(t, m, dst, src, t.One(m[src]), fl).Some?
    decreases |m| - src
  {
    hide TablesOk, CopyEntry, FormAt, FormEnd, Tables.One;
    if IsLegacyPrefix(m[src]) {
      Copies(t, m, dst + 1, src + 1, AfterPrefix(fl, m[src]));
      PrefixRowOf(t, m[src], fl);
      PrefixCopies(t, m, dst, src, fl);
    } else if m[src] == 0x0f {
      TwoByteCopied(t, m, dst, src, fl);
    } else {
      OneByteCopied(t, m, dst, src, fl);
    }
  }

  lemma PrefixCopies(t: Tables, m: Mem, dst: int, src: nat, fl: Flags)
    requires src + 1 < |m| && IsPrefixRow(t.One(m[src])) && FlagsAfter(t.One(m[src]), fl) == AfterPrefix(fl, m[src])
    requires CopyEntry(t, m, dst + 1, src + 1, t.One(m[src + 1]), AfterPrefix(fl, m[src])).Some?
    ensures CopyEntry(t, m, dst, src, t.One(m[src]), fl).Some?
  {
  }

  // ---------------------------------------------------------------------- misread inputs

  /** MOV AX, [1234h] with a 16-bit address ends after six bytes; four are taken for it. */
  lemma AddressMisread(t: Tables, c: Copied)
    requires TablesOk(t)
    requires CopyAt(t, [0x66, 0x67, 0x8b, 0x06, 0x34, 0x12, 0x90, 0x90], 0, 0) == Some(c)
    ensures EndAt([0x66, 0x67, 0x8b, 0x06, 0x34, 0x12, 0x90, 0x90], 0) == Some(6) && c.len != 6
  {
    hide TablesOk, CopyAt, CopyEntry;
    LengthReadAt(t, [0x66, 0x67, 0x8b, 0x06, 0x34, 0x12, 0x90, 0x90], 0, 0, c);
  }

  /** MOV EAX, CR0 written with mod 01 ends after three bytes whatever its mod; more are taken for it. */
  lemma ControlMisread(t: Tables, c: Copied)
    requires TablesOk(t)
    requires CopyAt(t, [0x0f, 0x20, 0x40, 0xc3, 0x90], 0, 0) == Some(c)
    ensures EndAt([0x0f, 0x20, 0x40, 0xc3, 0x90], 0) == Some(3) && c.len != 3
  {
    hide TablesOk, CopyAt, CopyEntry;
    LengthReadAt(t, [0x0f, 0x20, 0x40, 0xc3, 0x90], 0, 0, c);
  }
}

/** The copier as it runs: an object holding the prefix state and writing the destination in place. */
module X86Copier {
  import opened Options
  import opened Memory
  import opened X86Disasm
  import opened X86Flow
  import opened X86Length

  predicate RowUsable(e: Entry)
  {
    e.Bytes? ==> e.fixed >= 1 && e.fixed16 >= 1 && e.modOffset < e.fixed && e.modOffset < e.fixed16
  }

  lemma SizeLocal(m: Mem, n: Mem, src: nat, e: Entry, fl: Flags, k: nat)
    requires e.Bytes? && RowUsable(e) && BytesSize(m, src, e, fl) == Some(k) && src + k <= |m|
             && Agree(m, n, src, src + k)
    ensures k >= 1 && BytesSize(n, src, e, fl) == Some(k) && m[src..src + k] == n[src..src + k]
    ensures e.relOffset <= k ==> m[src..src + e.relOffset] == n[src..src + e.relOffset]
  {
  }

  lemma DisplacementLocal(m: Mem, n: Mem, a: nat, size: nat)
    requires size == 1 || size == 2 || size == 4
    requires a + size <= |m| && Agree(m, n, a, a + size)
    ensures Displacement(m, a, size) == Displacement(n, a, size)
  {
    hide Signed;
    assert forall i :: a <= i < a + size ==> At(m, i) == At(n, i);
  }

  lemma BytesCopied(m: Mem, dst: int, src: nat, e: Entry, fl: Flags, c: Copied)
    requires e.Bytes? && CopyBytes(m, dst, src, e, fl) == Some(c)
    ensures BytesSize(m, src, e, fl) == Some(c.len) && src + c.len <= |m|
    ensures e.relOffset > 0 ==> e.relOffset < c.len && c.len - e.relOffset in {1, 2, 4}
  {
    hide BytesSize, NewOffset, Displacement, Encode, Fits;
  }

  /** The copy depends only on the bytes it consumes. */
  lemma BytesLocal(m: Mem, n: Mem, dst: int, src: nat, e: Entry, fl: Flags, c: Copied)
    requires e.Bytes? && RowUsable(e) && CopyBytes(m, dst, src, e, fl) == Some(c)
    requires Agree(m, n, src, src + c.len)
    ensures c.len >= 1 && CopyBytes(n, dst, src, e, fl) == Some(c)
  {
    hide BytesSize, NewOffset, Displacement, Encode, Fits, RowUsable;
    BytesCopied(m, dst, src, e, fl, c);
    SizeLocal(m, n, src, e, fl, c.len);
    if e.relOffset > 0 { DisplacementLocal(m, n, src + e.relOffset, c.len - e.relOffset); }
  }

  lemma RowsUsable(t: Tables, b: byte)
    requires TablesOk(t)
    ensures RowUsable(t.One(b)) && RowUsable(t.Two(b))
  {
    assert OneRowOk(b, t.One(b)) && TwoRowOk(b, t.Two(b));
  }

  lemma EntryForm(t: Tables, m: Mem, dst: int, src: nat, e: Entry, fl: Flags)
    ensures e.Bytes? ==> CopyEntry(t, m, dst, src, e, fl) == CopyBytes(m, dst, src, e, fl)
    ensures !e.Bytes? && CopyEntry(t, m, dst, src, e, fl).Some? ==>
              src + 1 < |m| && !e.Invalid? && !(e.OpVex? && m[src + 1] >= 0xc0)
    ensures src + 1 < |m| && IsPrefixRow(e) ==>
              CopyEntry(t, m, dst, src, e, fl)
              == Prepend(m[src], CopyEntry(t, m, dst + 1, src + 1, t.One(m[src + 1]), FlagsAfter(e, fl)))
    ensures src + 1 < |m| && e.TwoByte? ==>
              CopyEntry(t, m, dst, src, e, fl)
              == Prepend(m[src], CopyEntry(t, m, dst + 1, src + 1, t.Two(m[src + 1]), FlagsAfter(e, fl)))
    ensures src + 1 < |m| && e.Jump? ==> CopyEntry(t, m, dst, src, e, fl) == CopyJump(m, dst, src)
    ensures src + 1 < |m| && PlainRow(e) && !e.Bytes? && !e.Invalid? && !(e.OpVex? && m[src + 1] >= 0xc0) ==>
              CopyEntry(t, m, dst, src, e, fl) == CopyBytes(m, dst, src, SubRow(e, m[src + 1], fl), fl)
  {
  }

  lemma RowShape(e: Entry)
    ensures e.Bytes? || e.Invalid? || IsPrefixRow(e) || e.TwoByte? || e.Jump? || PlainRow(e)
    ensures e.Bytes? || e.Invalid? || e.Jump? || PlainRow(e) ==> !IsPrefixRow(e) && !e.TwoByte?
  {
  }

  /** The copy depends only on the bytes it consumes. */
  lemma {:induction false} CopyLocal(t: Tables, m: Mem, n: Mem, dst: int, src: nat, e: Entry, fl: Flags, c: Copied)
    requires TablesOk(t) && RowUsable(e)
    requires CopyEntry(t, m, dst, src, e, fl) == Some(c)
    requires Agree(m, n, src, src + c.len)
    ensures c.len >= 1 && CopyEntry(t, n, dst, src, e, fl) == Some(c)
    decreases |m| - src
  {
    EntryForm(t, m, dst, src, e, fl);
    EntryForm(t, n, dst, src, e, fl);
    RowShape(e);
    hide CopyEntry, CopyBytes, CopyJump, PlainRow, TablesOk, RowUsable, FlagsAfter, SubRow, Tables.One, Tables.Two;
    if e.Bytes? {
      BytesLocal(m, n, dst, src, e, fl, c);
    } else if IsPrefixRow(e) || e.TwoByte? {
      var row := if e.TwoByte? then t.Two(m[src + 1]) else t.One(m[src + 1]);
      RowsUsable(t, m[src + 1]);
      CopyLocal(t, m, n, dst + 1, src + 1, row, FlagsAfter(e, fl),
                CopyEntry(t, m, dst + 1, src + 1, row, FlagsAfter(e, fl)).value);
    } else if e.Jump? {
      JumpLocal(m, n, dst, src, c);
    } else {
      SubRowUsable(e, m[src + 1], fl);
      BytesLocal(m, n, dst, src, SubRow(e, m[src + 1], fl), fl, c);
      BytesLength(m, dst, src, SubRow(e, m[src + 1], fl), fl, c);
    }
  }

  lemma JumpLocal(m: Mem, n: Mem, dst: int, src: nat, c: Copied)
    requires CopyJump(m, dst, src) == Some(c) && Agree(m, n, src, src + c.len)
    ensures c.len == 2 && CopyJump(n, dst, src) == Some(c)
  {
  }

  lemma SubRowUsable(e: Entry, modRm: byte, fl: Flags)
    ensures RowUsable(SubRow(e, modRm, fl))
    ensures SubRow(e, modRm, fl).fixed >= 2 && SubRow(e, modRm, fl).fixed16 >= 2
  {
  }

  lemma BytesLength(m: Mem, dst: int, src: nat, e: Entry, fl: Flags, c: Copied)
    requires e.Bytes? && CopyBytes(m, dst, src, e, fl) == Some(c)
    requires e.fixed >= 2 && e.fixed16 >= 2
    ensures c.len >= 2
  {
  }

  predicate Apart(a: int, n: int, b: int, k: int) { a + n <= b || b + k <= a }

  class CDetourDis {
    const space: AddressSpace
    const tables: Tables
    var bOperandOverride: bool
    var bAddressOverride: bool
    var bF2: bool
    var bF3: bool
    var lExtra: int

    constructor (space: AddressSpace, tables: Tables)
      ensures this.space == space && this.tables == tables
      ensures GetFlags() == NO_FLAGS && lExtra == 0
    {
      this.space := space;
      this.tables := tables;
      bOperandOverride, bAddressOverride, bF2, bF3 := false, false, false, false;
      lExtra := 0;
    }

    ghost function GetFlags(): Flags
      reads this
    {
      Flags(bOperandOverride, bAddressOverride, bF2, bF3)
    }

    /** The call may be made: the row applies at `src`, and source and destination do not overlap. */
    ghost predicate Ready(dst: nat, src: nat, e: Entry)
      reads this, space
    {
      && TablesOk(tables) && RowUsable(e)
      && CopyEntry(tables, space.b, dst, src, e, GetFlags()).Some?
      && var c := CopyEntry(tables, space.b, dst, src, e, GetFlags()).value;
      dst + |c.out| <= |space.b| && Apart(dst, |c.out|, src, c.len)
    }

    method CopyInstruction(dst: nat, src: nat) returns (next: nat)
      requires src < |space.b| && Ready(dst, src, tables.One(space.b[src]))
      requires GetFlags() == NO_FLAGS && lExtra == 0
      modifies this, space
      ensures CopyAt(tables, old(space.b), dst, src).Some?
      ensures var c := CopyAt(tables, old(space.b), dst, src).value;
              space.b == Store(old(space.b), dst, c.out) && next == src + c.len && lExtra == c.extra
    {
      next := Dispatch(tables.One(space.b[src]), dst, src);
    }

    method Dispatch(e: Entry, dst: nat, src: nat) returns (next: nat)
      requires Ready(dst, src, e) && lExtra == 0
      modifies this, space
      ensures CopyEntry(tables, old(space.b), dst, src, e, old(GetFlags())).Some?
      ensures var c := CopyEntry(tables, old(space.b), dst, src, e, old(GetFlags())).value;
              space.b == Store(old(space.b), dst, c.out) && next == src + c.len && lExtra == c.extra
      decreases |space.b| - src, 1
    {
      hide CopyEntry, X86Disasm.CopyBytes, CopyJump, TablesOk, RowUsable, PlainRow, SubRow, Tables.One, Tables.Two,
        Store;
      RowsUsable(tables, At(space.b, src + 1));
      EntryForm(tables, space.b, dst, src, e, GetFlags());
      RowShape(e);
      if e.Bytes? {
        next := CopyBytes(e, dst, src);
      } else if IsPrefixRow(e) || e.TwoByte? {
        match e {
          case Operand => bOperandOverride := true;
          case Address => bAddressOverride := true;
          case Repne => bF2 := true;
          case Rep => bF3 := true;
          case _ =>
        }
        var b := space.b[src + 1];
        next := CopyBytesPrefix(dst, src, if e.TwoByte? then tables.Two(b) else tables.One(b));
      } else if e.Jump? {
        next := CopyBytesJump(dst, src);
      } else {
        var modRm := space.b[src + 1];
        next := CopyBytes(SelectRow(e, modRm), dst, src);
      }
    }

    function SelectRow(e: Entry, modRm: byte): Entry
      reads this
    {
      SubRow(e, modRm, Flags(bOperandOverride, bAddressOverride, bF2, bF3))
    }

    /** One byte is copied, then the row of the following opcode is applied one byte further on. */
    method CopyBytesPrefix(dst: nat, src: nat, row: Entry) returns (next: nat)
      requires TablesOk(tables) && src + 1 < |space.b| && lExtra == 0
      requires RowUsable(row)
      requires CopyEntry(tables, space.b, dst + 1, src + 1, row, GetFlags()).Some?
      requires var c := CopyEntry(tables, space.b, dst + 1, src + 1, row, GetFlags()).value;
               dst + 1 + |c.out| <= |space.b| && Apart(dst, 1 + |c.out|, src, 1 + c.len)
      modifies this, space
      ensures CopyEntry(tables, old(space.b), dst + 1, src + 1, row, old(GetFlags())).Some?
      ensures var c := CopyEntry(tables, old(space.b), dst + 1, src + 1, row, old(GetFlags())).value;
              space.b == Store(old(space.b), dst, [old(space.b)[src]] + c.out) && next == src + 1 + c.len
              && lExtra == c.extra
      decreases |space.b| - src, 0
    {
      hide CopyEntry, TablesOk, RowUsable;
      ghost var was := space.b;
      ghost var c := CopyEntry(tables, was, dst + 1, src + 1, row, GetFlags()).value;
      ghost var fl := GetFlags();
      space.b := Store(space.b, dst, [space.b[src]]);
      ghost var step := space.b;
      CopyLocal(tables, was, step, dst + 1, src + 1, row, fl, c);
      next := Dispatch(row, dst + 1, src + 1);
      StoreAdjacent(was, dst, [was[src]], c.out);
    }

    method CopyBytes(e: Entry, dst: nat, src: nat) returns (next: nat)
      requires e.Bytes? && lExtra == 0 && X86Disasm.CopyBytes(space.b, dst, src, e, GetFlags()).Some?
      requires var c := X86Disasm.CopyBytes(space.b, dst, src, e, GetFlags()).value;
               dst + |c.out| <= |space.b|
      modifies this, space
      ensures X86Disasm.CopyBytes(old(space.b), dst, src, e, old(GetFlags())).Some?
      ensures var c := X86Disasm.CopyBytes(old(space.b), dst, src, e, old(GetFlags())).value;
              space.b == Store(old(space.b), dst, c.out) && next == src + c.len && lExtra == c.extra
    {
      hide BytesSize, NewOffset, Displacement, Encode, Fits;
      ghost var was := space.b;
      var nBytes := NumBytes(e, src);
      space.b := Store(space.b, dst, space.b[src..src + nBytes]);
      if e.relOffset > 0 {
        AdjustTarget(dst, src, e.relOffset, nBytes - e.relOffset, was);
      }
      if e.noEnlarge {
        lExtra := -lExtra;
      }
      next := src + nBytes;
    }

    /** The fixed part of the row plus what its ModR/M and SIB bytes announce. */
    method NumBytes(e: Entry, src: nat) returns (nBytes: nat)
      requires e.Bytes? && BytesSize(space.b, src, e, GetFlags()).Some?
      ensures BytesSize(space.b, src, e, GetFlags()) == Some(nBytes)
    {
      nBytes := if e.address then (if bAddressOverride then e.fixed16 else e.fixed)
      else if bOperandOverride then e.fixed16 else e.fixed;
      if e.modOffset > 0 {
        var bModRm := space.b[src + e.modOffset];
        nBytes := nBytes + ModRmSize(bModRm);
        if ModRmSib(bModRm) {
          var bSib := space.b[src + e.modOffset + 1];
          if bSib % 8 == 5 {
            nBytes := nBytes + 4;
          }
        }
      }
    }

    /** Re-bases the displacement already copied to `dst + offset`. */
    method AdjustTarget(dst: nat, src: nat, offset: nat, size: nat, ghost was: Mem)
      requires size in {1, 2, 4} && src + offset + size <= |was| && dst + offset + size <= |was|
      requires space.b == Store(was, dst, was[src..src + offset + size]) && lExtra == 0
      modifies this`lExtra, space
      ensures var x := NewOffset(Displacement(was, src + offset, size), dst, src);
              && space.b == Store(was, dst, was[src..src + offset] + Encode(x, size))
              && lExtra == if Fits(x, size) then 0 else 4 - size
    {
      hide NewOffset, Displacement, Encode, Fits, Store;
      CopiedDisplacement(was, dst, src, offset, size);
      var nOldOffset := Displacement(space.b, dst + offset, size);
      var nNewOffset := NewOffset(nOldOffset, dst, src);
      space.b := Store(space.b, dst + offset, Encode(nNewOffset, size));
      if !Fits(nNewOffset, size) {
        lExtra := 4 - size;
      }
      Overwritten(was, dst, was[src..src + offset], was[src + offset..src + offset + size], Encode(nNewOffset, size));
      assert was[src..src + offset] + was[src + offset..src + offset + size] == was[src..src + offset + size];
    }

    method CopyBytesJump(dst: nat, src: nat) returns (next: nat)
      requires CopyJump(space.b, dst, src).Some? && dst + |CopyJump(space.b, dst, src).value.out| <= |space.b|
      requires var c := CopyJump(space.b, dst, src).value; Apart(dst, |c.out|, src, c.len)
      modifies this`lExtra, space
      ensures var c := CopyJump(old(space.b), dst, src).value;
              space.b == Store(old(space.b), dst, c.out) && next == src + c.len && lExtra == c.extra
    {
      ghost var was := space.b;
      var nOldOffset := Disp8(space.b, src + 1);
      var opcode := if space.b[src] == 0xeb then [0xe9] else [0x0f, 0x80 + space.b[src] % 0x10];
      var nNewOffset := nOldOffset - (Signed(dst - src, SPACE) + |opcode| + 2);
      space.b := Store(space.b, dst, opcode);
      StoreAdjacent(was, dst, opcode, Bytes32(nNewOffset));
      space.b := Store(space.b, dst + |opcode|, Bytes32(nNewOffset));
      lExtra := |opcode| + 2;
      next := src + 2;
    }
  }

  lemma StoreAdjacent(m: Mem, a: nat, s: seq<byte>, t: seq<byte>)
    requires a + |s| + |t| <= |m|
    ensures Store(Store(m, a, s), a + |s|, t) == Store(m, a, s + t)
  {
  }

  lemma Overwritten(m: Mem, a: nat, s: seq<byte>, t: seq<byte>, u: seq<byte>)
    requires |t| == |u| && a + |s| + |t| <= |m|
    ensures Store(Store(m, a, s + t), a + |s|, u) == Store(m, a, s + u)
  {
  }

  lemma CopiedDisplacement(m: Mem, dst: nat, src: nat, offset: nat, size: nat)
    requires size in {1, 2, 4} && src + offset + size <= |m| && dst + offset + size <= |m|
    ensures Displacement(Store(m, dst, m[src..src + offset + size]), dst + offset, size)
         == Displacement(m, src + offset, size)
  {
    hide Signed, Store, At;
    var n := Store(m, dst, m[src..src + offset + size]);
    CopiedByte(m, dst, src, offset + size, offset);
    if size >= 2 { CopiedByte(m, dst, src, offset + size, offset + 1); }
    if size == 4 {
      CopiedByte(m, dst, src, offset + size, offset + 2);
      CopiedByte(m, dst, src, offset + size, offset + 3);
    }
  }

  lemma CopiedByte(m: Mem, dst: nat, src: nat, n: nat, k: nat)
    requires src + n <= |m| && dst + n <= |m| && k < n
    ensures At(Store(m, dst, m[src..src + n]), dst + k) == At(m, src + k)
  {
  }
}

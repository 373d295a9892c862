/** What the copier does to the meaning of the instruction it moves. */
module X86Relocation {
  import opened Options
  import opened Memory
  import opened X86Flow
  import opened X86Length
  import opened X86Disasm
  import opened Division

  /** The guard under which a relative transfer survives the move: a short form has no operand-size
      prefix (it is re-emitted with a 32-bit displacement), and a form that is not enlarged still
      fits its displacement. XBEGIN is copied as it is and survives only a move to where it was. */
  predicate Relocatable(m: Mem, dst: int, src: nat, op16: bool)
    decreases |m| - src
  {
    if src >= |m| then false
    else
      var op := m[src];
      if IsLegacyPrefix(op) then Relocatable(m, dst + 1, src + 1, op16 || op == 0x66)
      else if IsShort(op) then !op16
      else if IsLoop(op) then src + 2 <= |m| && Fits(NewOffset(Disp8(m, src + 1), dst, src), 1)
      else if IsNear(op) then NearFits(m, dst, src, src + 1, op16)
      else if op == 0x0f && src + 1 < |m| && IsNearCond(m[src + 1]) then
        NearFits(m, dst, src, src + 2, op16)
      else if op == 0xc7 && src + 1 < |m| && m[src + 1] == 0xf8 then (dst - src) % SPACE == 0
      else true
  }

  predicate NearFits(m: Mem, dst: int, src: nat, a: nat, op16: bool)
  {
    op16 ==> a + 2 <= |m| && Fits(NewOffset(Displacement(m, a, 2), dst, src), 2)
  }

  /** `after` is the transfer `before` with its fall-through at `next`. */
  ghost predicate SameTransfer(before: Flow, after: Flow, next: int)
  {
    before.Relative? && after == Relative(before.kind, next, before.target)
  }

  ghost predicate Holds(n: Mem, dst: nat, out: seq<byte>)
  {
    dst + |out| <= |n| && n[dst..dst + |out|] == out
  }

  lemma Shifted(a: int, k: int)
    ensures (a + k * 0x1_0000_0000) % 0x1_0000_0000 == a % 0x1_0000_0000
    ensures (a + k * 0x1_0000) % 0x1_0000 == a % 0x1_0000
  {
    ShiftedBy(a, k);
  }

  lemma ShiftedBy(a: int, k: int)
    ensures (a + k * 0x1_0000) % 0x1_0000 == a % 0x1_0000
  {
  }

  lemma SignedShift(x: int, modulus: int) returns (k: int)
    requires modulus > 0
    ensures x == Signed(x, modulus) + k * modulus
  {
    k := x / modulus + if 2 * (x % modulus) < modulus then 0 else 1;
    assert x == x / modulus * modulus + x % modulus;
    assert (x / modulus + 1) * modulus == x / modulus * modulus + modulus;
  }

  lemma SignedCongruent(a: int, x: int)
    ensures (a + Signed(x, SPACE)) % SPACE == (a + x) % SPACE
    ensures (a + Signed(x, SPACE)) % 0x1_0000 == (a + x) % 0x1_0000
    ensures (a + Signed(x, 0x1_0000)) % 0x1_0000 == (a + x) % 0x1_0000
  {
    var k := SignedShift(x, SPACE);
    Shifted(a + Signed(x, SPACE), k);
    Shifted(a + Signed(x, SPACE), k * 0x1_0000);
    var q := SignedShift(x, 0x1_0000);
    Shifted(a + Signed(x, 0x1_0000), q);
  }

  lemma NewOffsetCongruent(disp: int, dst: int, src: int, a: int)
    ensures (a + dst + NewOffset(disp, dst, src)) % SPACE == (a + src + disp) % SPACE
    ensures (a + dst + NewOffset(disp, dst, src)) % 0x1_0000 == (a + src + disp) % 0x1_0000
  {
    var moved := Signed(dst - src, SPACE);
    SignedCongruent(a + dst, disp - moved);
    var k := SignedShift(dst - src, SPACE);
    Shifted(a + src + disp, k);
    Shifted(a + src + disp, k * 0x1_0000);
  }

  /** The displacement of an enlarged jump whose opcode takes `head` bytes. */
  lemma EnlargedTarget(disp: int, dst: int, src: int, head: int)
    ensures Land(dst + head + 4, Signed(disp - (Signed(dst - src, SPACE) + 2 + head), SPACE), false) ==
            Land(src + 2, disp, false)
  {
    var moved := Signed(dst - src, SPACE);
    SignedCongruent(dst + head + 4, disp - (moved + 2 + head));
    var k := SignedShift(dst - src, SPACE);
    Shifted(src + 2 + disp, k);
  }

  lemma RebasedTarget32(disp: int, dst: int, src: int, a: int)
    ensures Land(dst + a, Signed(NewOffset(disp, dst, src), SPACE), false) == Land(src + a, disp, false)
  {
    NewOffsetCongruent(disp, dst, src, a);
    SignedCongruent(dst + a, NewOffset(disp, dst, src));
  }

  lemma RebasedTarget16(disp: int, dst: int, src: int, a: int)
    ensures Land(dst + a, Signed(NewOffset(disp, dst, src), 0x1_0000), true) == Land(src + a, disp, true)
  {
    NewOffsetCongruent(disp, dst, src, a);
    SignedCongruent(dst + a, NewOffset(disp, dst, src));
  }

  lemma RebasedTarget8(disp: int, dst: int, src: int, a: int, op16: bool)
    requires Fits(NewOffset(disp, dst, src), 1)
    ensures Signed(NewOffset(disp, dst, src), 0x100) == NewOffset(disp, dst, src)
    ensures Land(dst + a, NewOffset(disp, dst, src), op16) == Land(src + a, disp, op16)
  {
    NewOffsetCongruent(disp, dst, src, a);
  }

  lemma HeldByte(n: Mem, dst: nat, out: seq<byte>, k: nat)
    requires Holds(n, dst, out) && k < |out|
    ensures n[dst + k] == out[k]
  {
    assert n[dst..dst + |out|][k] == out[k];
  }

  lemma HeldTail(n: Mem, dst: nat, b: byte, out: seq<byte>)
    requires Holds(n, dst, [b] + out)
    ensures n[dst] == b && Holds(n, dst + 1, out)
  {
    HeldByte(n, dst, [b] + out, 0);
    assert n[dst + 1..dst + 1 + |out|] == n[dst..dst + |[b] + out|][1..];
  }

  /** Reading back a displacement that was encoded in place. */
  lemma HeldDisplacement(n: Mem, a: nat, x: int, size: nat)
    requires size in {1, 2, 4} && Holds(n, a, Encode(x, size))
    ensures size == 1 ==> Displacement(n, a, 1) == Signed(x, 0x100)
    ensures size == 2 ==> Displacement(n, a, 2) == Signed(x, 0x1_0000)
    ensures size == 4 ==> Displacement(n, a, 4) == Signed(x, SPACE)
  {
    forall k | 0 <= k < size ensures n[a + k] == Encode(x, size)[k] { HeldByte(n, a, Encode(x, size), k); }
    if size == 2 {
      Read16OfBytes(x);
    } else if size == 4 {
      Read32OfBytes(x);
      assert Read32(n, a) == Read32(Bytes32(x), 0);
    }
  }

  lemma HeldSplit(n: Mem, dst: nat, s: seq<byte>, t: seq<byte>)
    requires Holds(n, dst, s + t)
    ensures Holds(n, dst, s) && Holds(n, dst + |s|, t)
  {
    assert n[dst..dst + |s|] == n[dst..dst + |s + t|][..|s|];
    assert n[dst + |s|..dst + |s| + |t|] == n[dst..dst + |s + t|][|s|..];
  }

  lemma EnlargedForm(n: Mem, dst: nat, src: nat, op: byte, disp: int, c: Copied)
    requires IsShort(op)
    requires var x := disp - (Signed(dst - src, SPACE) + 3);
             op == 0xeb ==> c.out == [0xe9] + Bytes32(x)
    requires var x := disp - (Signed(dst - src, SPACE) + 4);
             op != 0xeb ==> c.out == [0x0f, 0x80 + op % 0x10] + Bytes32(x)
    requires Holds(n, dst, c.out)
    ensures dst + |c.out| <= |n|
    ensures n[dst] == c.out[0] && n[dst + 1] == c.out[1]
    ensures var head := if op == 0xeb then 1 else 2;
            Displacement(n, dst + head, 4) == Signed(disp - (Signed(dst - src, SPACE) + 2 + head), SPACE)
  {
    var head := if op == 0xeb then 1 else 2;
    var x := disp - (Signed(dst - src, SPACE) + 2 + head);
    assert c.out == c.out[..head] + Bytes32(x);
    HeldSplit(n, dst, c.out[..head], Bytes32(x));
    HeldByte(n, dst, c.out, 0);
    HeldByte(n, dst, c.out, 1);
    HeldDisplacement(n, dst + head, x, 4);
  }

  lemma CondCode(op: byte)
    requires 0x70 <= op <= 0x7f
    ensures IsNearCond(0x80 + op % 0x10) && (0x80 + op % 0x10) % 0x10 == op % 0x10
  {
  }

  lemma NearForm(n: Mem, a: nat, kind: Kind)
    ensures a + 4 <= |n| ==>
              NearFlow(n, a, kind, false) == Relative(kind, a + 4, Land(a + 4, Displacement(n, a, 4), false))
    ensures a + 2 <= |n| ==>
              NearFlow(n, a, kind, true) == Relative(kind, a + 2, Land(a + 2, Displacement(n, a, 2), true))
  {
  }

  lemma OpcodeForm(m: Mem, a: nat, op16: bool, addr16: bool)
    requires a + 1 < |m|
    ensures IsShort(m[a]) ==>
              FlowFrom(m, a, op16, addr16) == Relative(ShortKind(m[a]), a + 2, Land(a + 2, Disp8(m, a + 1), op16))
    ensures IsNear(m[a]) ==> FlowFrom(m, a, op16, addr16) == NearFlow(m, a + 1, NearKind(m[a]), op16)
    ensures m[a] == 0x0f && IsNearCond(m[a + 1]) ==>
              FlowFrom(m, a, op16, addr16) == NearFlow(m, a + 2, CondKind(m[a + 1] % 0x10), op16)
  {
  }

  lemma ShortJump(m: Mem, n: Mem, dst: nat, src: nat, op16: bool, addr16: bool, c: Copied)
    requires src + 2 <= |m| && IsShort(m[src]) && CopyJump(m, dst, src) == Some(c)
    requires Holds(n, dst, c.out)
    ensures !op16 <==>
            SameTransfer(FlowFrom(m, src, op16, addr16), FlowFrom(n, dst, op16, addr16), dst + c.len + c.extra)
  {
    hide FlowFrom, NearFlow, Displacement, Disp8, Signed;
    var disp := Disp8(m, src + 1);
    var head := if m[src] == 0xeb then 1 else 2;
    var kind := ShortKind(m[src]);
    EnlargedForm(n, dst, src, m[src], disp, c);
    EnlargedTarget(disp, dst, src, head);
    if m[src] != 0xeb { CondCode(m[src]); }
    NearForm(n, dst + head, kind);
    OpcodeForm(m, src, op16, addr16);
    OpcodeForm(n, dst, op16, addr16);
  }

  lemma Near32(m: Mem, n: Mem, dst: nat, src: nat, head: nat, kind: Kind)
    requires src + head + 4 <= |m|
    requires Holds(n, dst + head, Encode(NewOffset(Displacement(m, src + head, 4), dst, src), 4))
    ensures SameTransfer(NearFlow(m, src + head, kind, false), NearFlow(n, dst + head, kind, false), dst + head + 4)
  {
    var disp := Displacement(m, src + head, 4);
    HeldDisplacement(n, dst + head, NewOffset(disp, dst, src), 4);
    RebasedTarget32(disp, dst, src, head + 4);
    NearForm(m, src + head, kind);
    NearForm(n, dst + head, kind);
  }

  lemma Near16(m: Mem, n: Mem, dst: nat, src: nat, head: nat, kind: Kind)
    requires src + head + 2 <= |m|
    requires Holds(n, dst + head, Encode(NewOffset(Displacement(m, src + head, 2), dst, src), 2))
    ensures SameTransfer(NearFlow(m, src + head, kind, true), NearFlow(n, dst + head, kind, true), dst + head + 2)
  {
    var disp := Displacement(m, src + head, 2);
    HeldDisplacement(n, dst + head, NewOffset(disp, dst, src), 2);
    RebasedTarget16(disp, dst, src, head + 2);
    NearForm(m, src + head, kind);
    NearForm(n, dst + head, kind);
  }

  lemma Near(m: Mem, n: Mem, dst: nat, src: nat, head: nat, kind: Kind, op16: bool, size: nat)
    requires size == (if op16 then 2 else 4) && src + head + size <= |m|
    requires Holds(n, dst + head, Encode(NewOffset(Displacement(m, src + head, size), dst, src), size))
    ensures var extra := if Fits(NewOffset(Displacement(m, src + head, size), dst, src), size) then 0 else 4 - size;
            NearFits(m, dst, src, src + head, op16) <==>
            SameTransfer(NearFlow(m, src + head, kind, op16), NearFlow(n, dst + head, kind, op16),
                         dst + head + size + extra)
  {
    if op16 { Near16(m, n, dst, src, head, kind); } else { Near32(m, n, dst, src, head, kind); }
  }

  lemma DisplacementForm(m: Mem, a: nat)
    ensures Displacement(m, a, 1) == Disp8(m, a)
  {
  }

  lemma LoopForm(m: Mem, a: nat, op16: bool, addr16: bool)
    requires a + 2 <= |m| && IsLoop(m[a])
    ensures FlowFrom(m, a, op16, addr16) == Relative(LoopKind(m[a], addr16), a + 2, Land(a + 2, Disp8(m, a + 1), op16))
  {
  }

  lemma Loop(m: Mem, n: Mem, dst: nat, src: nat, op16: bool, addr16: bool)
    requires src + 2 <= |m| && IsLoop(m[src])
    requires Holds(n, dst, [m[src]] + Encode(NewOffset(Disp8(m, src + 1), dst, src), 1))
    ensures var offset := NewOffset(Disp8(m, src + 1), dst, src);
            Fits(offset, 1) <==>
            SameTransfer(FlowFrom(m, src, op16, addr16), FlowFrom(n, dst, op16, addr16),
                         dst + 2 + if Fits(offset, 1) then 0 else -3)
  {
    hide FlowFrom, NewOffset, Disp8, Land, Signed, Encode, Holds;
    var disp := Disp8(m, src + 1);
    var offset := NewOffset(disp, dst, src);
    HeldTail(n, dst, m[src], Encode(offset, 1));
    HeldDisplacement(n, dst + 1, offset, 1);
    DisplacementForm(n, dst + 1);
    LoopForm(m, src, op16, addr16);
    LoopForm(n, dst, op16, addr16);
    if Fits(offset, 1) { RebasedTarget8(disp, dst, src, 2, op16); }
  }

  lemma PrefixStep(t: Tables, m: Mem, dst: int, src: nat, fl: Flags, c: Copied) returns (rest: Copied)
    requires TablesOk(t) && src < |m| && IsLegacyPrefix(m[src])
    requires CopyEntry(t, m, dst, src, t.One(m[src]), fl) == Some(c)
    ensures src + 1 < |m| && CopyEntry(t, m, dst + 1, src + 1, t.One(m[src + 1]), AfterPrefix(fl, m[src])) == Some(rest)
    ensures c == Copied([m[src]] + rest.out, rest.len + 1, rest.extra)
  {
    rest := CopyEntry(t, m, dst + 1, src + 1, t.One(m[src + 1]), AfterPrefix(fl, m[src])).value;
  }

  lemma NearCopied(m: Mem, dst: int, src: nat, fl: Flags, c: Copied)
    requires src < |m| && CopyBytes(m, dst, src, BYTES3_OR5_TARGET, fl) == Some(c)
    ensures var size := if fl.op16 then 2 else 4;
            && src + 1 + size <= |m|
            && var offset := NewOffset(Displacement(m, src + 1, size), dst, src);
            && c == Copied([m[src]] + Encode(offset, size), 1 + size, if Fits(offset, size) then 0 else 4 - size)
  {
    assert m[src..src + 1] == [m[src]];
  }

  lemma LoopCopied(m: Mem, dst: int, src: nat, fl: Flags, c: Copied)
    requires src < |m| && CopyBytes(m, dst, src, BYTES2_CANT_JUMP, fl) == Some(c)
    ensures src + 2 <= |m|
    ensures var offset := NewOffset(Disp8(m, src + 1), dst, src);
            c == Copied([m[src]] + Encode(offset, 1), 2, if Fits(offset, 1) then 0 else -3)
  {
    assert m[src..src + 1] == [m[src]];
  }

  lemma TwoByteStep(t: Tables, m: Mem, dst: int, src: nat, fl: Flags, c: Copied) returns (inner: Copied)
    requires TablesOk(t) && src < |m| && m[src] == 0x0f
    requires CopyEntry(t, m, dst, src, t.One(m[src]), fl) == Some(c)
    ensures src + 1 < |m| && CopyEntry(t, m, dst + 1, src + 1, t.Two(m[src + 1]), fl) == Some(inner)
    ensures c == Copied([m[src]] + inner.out, inner.len + 1, inner.extra)
  {
    assert t.One(0x0f) == TwoByte;
    inner := CopyEntry(t, m, dst + 1, src + 1, t.Two(m[src + 1]), fl).value;
  }

  lemma PlainEntry(t: Tables, m: Mem, dst: int, src: nat, e: Entry, fl: Flags, c: Copied)
    requires src < |m| && PlainRow(e)
    requires CopyEntry(t, m, dst, src, e, fl) == Some(c)
    ensures src + c.len <= |m| && c == Copied(m[src..src + c.len], c.len, 0) && c.len >= 1
  {
  }

  lemma NewOffsetShift(disp: int, dst: int, src: int)
    ensures NewOffset(disp, dst + 1, src + 1) == NewOffset(disp, dst, src)
  {
  }

  lemma NearRow(t: Tables, b: byte)
    requires TablesOk(t) && IsNear(b)
    ensures t.One(b) == BYTES3_OR5_TARGET
  {
    assert OneRowOk(b, t.One(b));
  }

  lemma NearCondRow(t: Tables, b: byte)
    requires TablesOk(t)
    ensures IsNearCond(b) ==> t.Two(b) == BYTES3_OR5_TARGET
    ensures !IsNearCond(b) ==> PlainRow(t.Two(b))
  {
    assert TwoRowOk(b, t.Two(b));
  }

  lemma NearTargetEntry(t: Tables, m: Mem, dst: int, src: nat, fl: Flags, c: Copied)
    requires src < |m| && CopyEntry(t, m, dst, src, BYTES3_OR5_TARGET, fl) == Some(c)
    ensures CopyBytes(m, dst, src, BYTES3_OR5_TARGET, fl) == Some(c)
  {
  }

  lemma NearCondKept(t: Tables, m: Mem, n: Mem, dst: nat, src: nat, fl: Flags, c: Copied)
    requires TablesOk(t) && src + 1 < |m| && m[src] == 0x0f && IsNearCond(m[src + 1])
    requires CopyEntry(t, m, dst, src, t.One(m[src]), fl) == Some(c) && Holds(n, dst, c.out)
    ensures SameTransfer(FlowFrom(m, src, fl.op16, fl.addr16), FlowFrom(n, dst, fl.op16, fl.addr16),
                         dst + c.len + c.extra)
       <==> NearFits(m, dst, src, src + 2, fl.op16)
  {
    hide *;
    var kind := CondKind(m[src + 1] % 0x10);
    var size := if fl.op16 then 2 else 4;
    NearCondRow(t, m[src + 1]);
    var inner := TwoByteStep(t, m, dst, src, fl, c);
    NearTargetEntry(t, m, dst + 1, src + 1, fl, inner);
    NearCopied(m, dst + 1, src + 1, fl, inner);
    var code := Encode(NewOffset(Displacement(m, src + 2, size), dst, src), size);
    NewOffsetShift(Displacement(m, src + 2, size), dst, src);
    assert inner.out == [m[src + 1]] + code;
    HeldTail(n, dst, m[src], inner.out);
    HeldTail(n, dst + 1, m[src + 1], code);
    Near(m, n, dst, src, 2, kind, fl.op16, size);
    OpcodeForm(m, src, fl.op16, fl.addr16);
    OpcodeForm(n, dst, fl.op16, fl.addr16);
  }

  lemma NearKept(t: Tables, m: Mem, n: Mem, dst: nat, src: nat, fl: Flags, c: Copied)
    requires TablesOk(t) && src < |m| && IsNear(m[src])
    requires CopyEntry(t, m, dst, src, t.One(m[src]), fl) == Some(c) && Holds(n, dst, c.out)
    ensures SameTransfer(FlowFrom(m, src, fl.op16, fl.addr16), FlowFrom(n, dst, fl.op16, fl.addr16),
                         dst + c.len + c.extra)
       <==> NearFits(m, dst, src, src + 1, fl.op16)
  {
    hide *;
    var op := m[src];
    var size := if fl.op16 then 2 else 4;
    NearRow(t, op);
    NearTargetEntry(t, m, dst, src, fl, c);
    NearCopied(m, dst, src, fl, c);
    HeldTail(n, dst, op, Encode(NewOffset(Displacement(m, src + 1, size), dst, src), size));
    Near(m, n, dst, src, 1, NearKind(op), fl.op16, size);
    OpcodeForm(m, src, fl.op16, fl.addr16);
    OpcodeForm(n, dst, fl.op16, fl.addr16);
  }

  predicate IsAbort(m: Mem, a: nat) { a + 1 < |m| && m[a] == 0xc7 && m[a + 1] == 0xf8 }

  lemma AbortForm(m: Mem, a: nat, op16: bool, addr16: bool)
    requires IsAbort(m, a)
    ensures FlowFrom(m, a, op16, addr16) == AbortFlow(m, a + 2, op16)
  {
  }

  lemma AbortCopied(t: Tables, m: Mem, dst: int, src: nat, fl: Flags, c: Copied)
    requires TablesOk(t) && IsAbort(m, src) && CopyEntry(t, m, dst, src, t.One(m[src]), fl) == Some(c)
    ensures var len := if fl.op16 then 4 else 6; src + len <= |m| && c == Copied(m[src..src + len], len, 0)
  {
    assert OneRowOk(0xc7, t.One(0xc7));
    assert ModRmSize(0xf8) == 0 && !ModRmSib(0xf8);
  }

  lemma SameDisp(m: Mem, n: Mem, dst: nat, src: nat, op16: bool)
    requires var len := if op16 then 4 else 6; src + len <= |m| && Holds(n, dst, m[src..src + len])
    ensures var len := if op16 then 4 else 6;
            dst + len <= |n| && n[dst] == m[src] && n[dst + 1] == m[src + 1]
            && AbortDisp(n, dst + 2, op16) == AbortDisp(m, src + 2, op16)
  {
    var out := m[src..src + if op16 then 4 else 6];
    HeldByte(n, dst, out, 0);
    HeldByte(n, dst, out, 1);
    HeldByte(n, dst, out, 2);
    HeldByte(n, dst, out, 3);
    if !op16 {
      HeldByte(n, dst, out, 4);
      HeldByte(n, dst, out, 5);
    }
  }

  lemma LandsApart(dst: int, src: int, a: int, disp: int)
    ensures Land(dst + a, disp, false) == Land(src + a, disp, false) <==> (dst - src) % SPACE == 0
  {
    var k := dst - src;
    var x := src + a + disp;
    assert dst + a + disp == x + k;
    SameResidue(x, k);
  }

  lemma SameResidue(x: int, k: int)
    ensures (x + k) % SPACE == x % SPACE <==> k % SPACE == 0
  {
    var q, r, p, s := x / SPACE, x % SPACE, k / SPACE, k % SPACE;
    assert x + k == SPACE * (q + p) + (r + s);
    if r + s < SPACE { Euclid(x + k, SPACE, q + p, r + s); } else { Euclid(x + k, SPACE, q + p + 1, r + s - SPACE); }
  }

  /** XBEGIN keeps its displacement, so its abort address moves along with it. */
  lemma AbortKept(t: Tables, m: Mem, n: Mem, dst: nat, src: nat, fl: Flags, c: Copied)
    requires TablesOk(t) && IsAbort(m, src)
    requires CopyEntry(t, m, dst, src, t.One(m[src]), fl) == Some(c) && Holds(n, dst, c.out)
    ensures SameTransfer(FlowFrom(m, src, fl.op16, fl.addr16), FlowFrom(n, dst, fl.op16, fl.addr16),
                         dst + c.len + c.extra)
       <==> (dst - src) % SPACE == 0
  {
    hide FlowFrom, CopyEntry, TablesOk, AbortDisp, Land;
    AbortCopied(t, m, dst, src, fl, c);
    SameDisp(m, n, dst, src, fl.op16);
    AbortForm(m, src, fl.op16, fl.addr16);
    AbortForm(n, dst, fl.op16, fl.addr16);
    LandsApart(dst, src, c.len, AbortDisp(m, src + 2, fl.op16));
  }

  /** An XBEGIN with displacement 0 moved from 0 to 16: the copier accepts it, and its abort address has
      moved by 16. */
  lemma AbortSpoiled(t: Tables)
    requires TablesOk(t)
    ensures var m := [0xc7, 0xf8, 0, 0, 0, 0];
            var n := Fill(16, 0) + m;
            && CopyAt(t, m, 16, 0) == Some(Copied(m, 6, 0)) && Holds(n, 16, m)
            && FlowAt(m, 0) == Relative(AbortKind, 6, 6) && FlowAt(n, 16) == Relative(AbortKind, 22, 22)
            && !SameTransfer(FlowAt(m, 0), FlowAt(n, 16), 22)
  {
    hide CopyEntry, TablesOk, FlowFrom, AbortDisp, Land;
    var m: Mem := [0xc7, 0xf8, 0, 0, 0, 0];
    var n := Fill(16, 0) + m;
    AbortTaken(t, m, 16);
    assert n[16..22] == m && m[0..6] == m;
    AbortForm(m, 0, false, false);
    AbortForm(n, 16, false, false);
    NoDisplacement(m, 2);
    NoDisplacement(n, 18);
  }

  lemma NoDisplacement(m: Mem, a: nat)
    requires At(m, a) == 0 && At(m, a + 1) == 0 && At(m, a + 2) == 0 && At(m, a + 3) == 0 && a + 4 < SPACE
    ensures AbortDisp(m, a, false) == 0 && Land(a + 4, 0, false) == a + 4
  {
    hide Land, AbortDisp, Signed, At;
    ZeroDisp(m, a);
    LandsThere(a + 4);
  }

  lemma ZeroDisp(m: Mem, a: nat)
    requires At(m, a) == 0 && At(m, a + 1) == 0 && At(m, a + 2) == 0 && At(m, a + 3) == 0
    ensures AbortDisp(m, a, false) == 0
  {
    hide At, Signed, Read32;
    ReadZero(m, a);
    SignedZero();
  }

  lemma SignedZero()
    ensures Signed(0, SPACE) == 0
  {
  }

  lemma LandsThere(a: nat)
    requires a < SPACE
    ensures Land(a, 0, false) == a
  {
  }

  lemma AbortTaken(t: Tables, m: Mem, dst: nat)
    requires TablesOk(t) && m == [0xc7, 0xf8, 0, 0, 0, 0]
    ensures CopyAt(t, m, dst, 0) == Some(Copied(m, 6, 0))
  {
    assert OneRowOk(0xc7, t.One(0xc7));
    assert ModRmSize(0xf8) == 0 && !ModRmSib(0xf8);
    assert m[0..6] == m;
  }

  lemma ShortTaken(t: Tables, m: Mem, dst: int, src: nat, fl: Flags, c: Copied)
    requires TablesOk(t) && src < |m| && IsShort(m[src]) && CopyEntry(t, m, dst, src, t.One(m[src]), fl) == Some(c)
    ensures src + 2 <= |m| && CopyJump(m, dst, src) == Some(c)
  {
    hide SizesOk;
    assert OneRowOk(m[src], t.One(m[src]));
  }

  lemma LoopTaken(t: Tables, m: Mem, dst: int, src: nat, fl: Flags, c: Copied)
    requires TablesOk(t) && src < |m| && IsLoop(m[src]) && CopyEntry(t, m, dst, src, t.One(m[src]), fl) == Some(c)
    ensures CopyBytes(m, dst, src, BYTES2_CANT_JUMP, fl) == Some(c)
  {
    hide SizesOk;
    assert OneRowOk(m[src], t.One(m[src]));
  }

  /** The copy of a relative transfer, placed at `dst`, is the same transfer (kind and absolute target,
      falling through past the space reserved for it) exactly when it is relocatable. */
  lemma {:induction false} TransferKept(t: Tables, m: Mem, n: Mem, dst: nat, src: nat, fl: Flags, c: Copied)
    requires TablesOk(t) && src < |m|
    requires CopyEntry(t, m, dst, src, t.One(m[src]), fl) == Some(c) && Holds(n, dst, c.out)
    requires FlowFrom(m, src, fl.op16, fl.addr16).Relative?
    ensures SameTransfer(FlowFrom(m, src, fl.op16, fl.addr16), FlowFrom(n, dst, fl.op16, fl.addr16),
                         dst + c.len + c.extra)
       <==> Relocatable(m, dst, src, fl.op16)
    decreases |m| - src
  {
    hide TablesOk, CopyEntry, NearFits, NearFlow, Holds, Tables.One, Fits, NewOffset, Land;
    var op := m[src];
    if IsLegacyPrefix(op) {
      var fl' := AfterPrefix(fl, op);
      var rest := PrefixStep(t, m, dst, src, fl, c);
      HeldTail(n, dst, op, rest.out);
      assert FlowFrom(m, src, fl.op16, fl.addr16) == FlowFrom(m, src + 1, fl'.op16, fl'.addr16);
      assert FlowFrom(n, dst, fl.op16, fl.addr16) == FlowFrom(n, dst + 1, fl'.op16, fl'.addr16);
      assert Relocatable(m, dst, src, fl.op16) == Relocatable(m, dst + 1, src + 1, fl'.op16);
      TransferKept(t, m, n, dst + 1, src + 1, fl', rest);
    } else if IsShort(op) {
      ShortTaken(t, m, dst, src, fl, c);
      ShortJump(m, n, dst, src, fl.op16, fl.addr16, c);
    } else if IsLoop(op) {
      LoopTaken(t, m, dst, src, fl, c);
      LoopCopied(m, dst, src, fl, c);
      Loop(m, n, dst, src, fl.op16, fl.addr16);
    } else if IsNear(op) {
      NearKept(t, m, n, dst, src, fl, c);
    } else if op == 0xc7 {
      AbortKept(t, m, n, dst, src, fl, c);
    } else {
      NearCondKept(t, m, n, dst, src, fl, c);
    }
  }

  /** Opcodes whose row is a relative transfer decode as one. */
  lemma TransferRows(t: Tables, m: Mem, dst: int, src: nat, fl: Flags, c: Copied)
    requires TablesOk(t) && src < |m| && !IsLegacyPrefix(m[src])
    requires CopyEntry(t, m, dst, src, t.One(m[src]), fl) == Some(c)
    ensures IsShort(m[src]) || IsLoop(m[src]) || IsNear(m[src]) ==> FlowFrom(m, src, fl.op16, fl.addr16).Relative?
  {
    var op := m[src];
    if IsShort(op) {
      assert t.One(op) == Jump;
    } else if IsLoop(op) {
      assert t.One(op) == BYTES2_CANT_JUMP;
      LoopCopied(m, dst, src, fl, c);
      LoopForm(m, src, fl.op16, fl.addr16);
    } else if IsNear(op) {
      assert t.One(op) == BYTES3_OR5_TARGET;
      NearCopied(m, dst, src, fl, c);
      OpcodeForm(m, src, fl.op16, fl.addr16);
      NearForm(m, src + 1, NearKind(op));
    }
  }

  lemma NearIsRelative(m: Mem, a: nat, kind: Kind, op16: bool)
    ensures a + (if op16 then 2 else 4) <= |m| ==> NearFlow(m, a, kind, op16).Relative?
  {
  }

  lemma PrefixForm(m: Mem, a: nat, op16: bool, addr16: bool)
    requires a < |m| && IsLegacyPrefix(m[a])
    ensures FlowFrom(m, a, op16, addr16) == FlowFrom(m, a + 1, op16 || m[a] == 0x66, addr16 || m[a] == 0x67)
  {
  }

  lemma PlainOpcode(t: Tables, op: byte)
    requires TablesOk(t) && !IsLegacyPrefix(op) && !IsShort(op) && !IsLoop(op) && !IsNear(op) && op != 0x0f
    ensures PlainRow(t.One(op))
  {
    assert OneRowOk(op, t.One(op));
  }

  lemma TwoByteKept(t: Tables, m: Mem, dst: int, src: nat, fl: Flags, c: Copied)
    requires TablesOk(t) && src < |m| && m[src] == 0x0f
    requires CopyEntry(t, m, dst, src, t.One(m[src]), fl) == Some(c)
    requires !FlowFrom(m, src, fl.op16, fl.addr16).Relative?
    ensures src + c.len <= |m| && c == Copied(m[src..src + c.len], c.len, 0) && c.len >= 1
  {
    hide *;
    var inner := TwoByteStep(t, m, dst, src, fl, c);
    NearCondRow(t, m[src + 1]);
    if IsNearCond(m[src + 1]) {
      NearTargetEntry(t, m, dst + 1, src + 1, fl, inner);
      NearCopied(m, dst + 1, src + 1, fl, inner);
      OpcodeForm(m, src, fl.op16, fl.addr16);
      NearIsRelative(m, src + 2, CondKind(m[src + 1] % 0x10), fl.op16);
      assert false;
    } else {
      PlainEntry(t, m, dst + 1, src + 1, t.Two(m[src + 1]), fl, inner);
      assert [m[src]] + m[src + 1..src + 1 + inner.len] == m[src..src + 1 + inner.len];
    }
  }

  /** Anything else is copied byte for byte. */
  lemma {:induction false} PlainKept(t: Tables, m: Mem, dst: int, src: nat, fl: Flags, c: Copied)
    requires TablesOk(t) && src < |m|
    requires CopyEntry(t, m, dst, src, t.One(m[src]), fl) == Some(c)
    requires !FlowFrom(m, src, fl.op16, fl.addr16).Relative?
    ensures src + c.len <= |m| && c == Copied(m[src..src + c.len], c.len, 0) && c.len >= 1
    decreases |m| - src
  {
    hide CopyEntry, FlowFrom, TablesOk, NearFlow;
    var op := m[src];
    if IsLegacyPrefix(op) {
      var fl' := AfterPrefix(fl, op);
      var rest := PrefixStep(t, m, dst, src, fl, c);
      PrefixForm(m, src, fl.op16, fl.addr16);
      PlainKept(t, m, dst + 1, src + 1, fl', rest);
      assert [op] + m[src + 1..src + 1 + rest.len] == m[src..src + 1 + rest.len];
    } else if op == 0x0f {
      TwoByteKept(t, m, dst, src, fl, c);
    } else {
      TransferRows(t, m, dst, src, fl, c);
      PlainOpcode(t, op);
      PlainEntry(t, m, dst, src, t.One(op), fl, c);
    }
  }
}

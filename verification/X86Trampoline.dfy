/** What DetourAttachEx puts into a trampoline: the run of copied instructions, the alignment map
    for suspended threads and the jump back to the rest of the target. */
module X86Trampoline {
  import opened Options
  import opened Memory
  import opened X86Flow
  import opened X86Length
  import opened X86Disasm
  import opened X86Relocation
  import opened X86Sizes

  const SIZE_OF_JMP := 5
  const CODE_SIZE := 30
  const RESTORE_SIZE := 22
  const ALIGN_SIZE := 8
  const TRAMPOLINE_SIZE := 72

  // Field offsets of _DETOUR_TRAMPOLINE.
  const OFF_CB_CODE := 30
  const OFF_RESTORE := 32
  const OFF_CB_RESTORE := 54
  const OFF_ALIGN := 56
  const OFF_REMAIN := 64
  const OFF_DETOUR := 68

  /** Longest relocated instruction the trampoline was sized for. */
  const MAX_MOVED := 13

  function JmpBytes(at: int, to: int): (s: seq<byte>)
    ensures |s| == 5
  {
    [0xe9] + Bytes32(to - (at + 5))
  }

  /** A generated jump goes where it was asked to go. */
  lemma JmpLands(m: Mem, at: nat, to: u32)
    requires Holds(m, at, JmpBytes(at, to))
    ensures FlowAt(m, at) == Relative(JumpKind, at + 5, to)
  {
    hide FlowFrom, NearFlow, Displacement, Signed;
    var x := to - (at + 5);
    HeldTail(m, at, 0xe9, Bytes32(x));
    HeldDisplacement(m, at + 1, x, 4);
    SignedCongruent(at + 5, x);
    OpcodeForm(m, at, false, false);
    NearForm(m, at + 1, JumpKind);
  }

  /** detour_does_code_end_function */
  function EndsFunction(m: Mem, a: int): bool
  {
    var b0, b1, b2 := At(m, a), At(m, a + 1), At(m, a + 2);
    || b0 == 0xeb || b0 == 0xe9 || b0 == 0xe0 || b0 == 0xc2 || b0 == 0xc3 || b0 == 0xcc
    || (b0 == 0xf3 && b1 == 0xc3)
    || (b0 == 0xff && b1 == 0x25)
    || ((b0 == 0x26 || b0 == 0x2e || b0 == 0x36 || b0 == 0x3e || b0 == 0x64 || b0 == 0x65) && b1 == 0xff && b2 == 0x25)
  }

  /** detour_is_code_filler: the length of the padding instruction at `a`, 0 if there is none. */
  function Filler(m: Mem, a: int): (n: nat)
    ensures n <= 11
  {
    var p := FillerTail(m, a);
    if At(m, a) == 0x90 then 1
    else if At(m, a) == 0x66 && At(m, a + 1) == 0x90 then 2
    else if 3 <= p <= 5 || p == 7 || p == 8 then p
    else if At(m, a) == 0x66 && FillerTail(m, a + 1) == 5 then 6
    else if At(m, a) == 0x66 && FillerTail(m, a + 1) == 8 then 9
    else if At(m, a) == 0x66 && At(m, a + 1) == 0x66 && FillerTail(m, a + 2) == 8 then 10
    else if At(m, a) == 0x66 && At(m, a + 1) == 0x66 && At(m, a + 2) == 0x66 && FillerTail(m, a + 3) == 8 then 11
    else if At(m, a) == 0xcc then 1
    else 0
  }

  /** Length of an unprefixed `0F 1F` no-op, 0 if there is none. */
  function FillerTail(m: Mem, a: int): (n: nat)
    ensures n in {0, 3, 4, 5, 7, 8}
  {
    if At(m, a) != 0x0f || At(m, a + 1) != 0x1f then 0
    else if At(m, a + 2) == 0x00 then 3
    else if At(m, a + 2) == 0x40 && Zeros(m, a + 3, 1) then 4
    else if At(m, a + 2) == 0x44 && Zeros(m, a + 3, 2) then 5
    else if At(m, a + 2) == 0x80 && Zeros(m, a + 3, 4) then 7
    else if At(m, a + 2) == 0x84 && Zeros(m, a + 3, 5) then 8
    else 0
  }

  /** The test for the end of a function finds the instructions execution does not go past, and besides
      them a LOOPNE. */
  lemma EndsFunctionMeans(m: Mem, a: nat)
    requires a + 6 <= |m|
    ensures EndsFunction(m, a) <==> Terminal(m, a) || At(m, a) == 0xe0
  {
    hide NearFlow, Land, Disp8;
    OpcodeForm(m, a, false, false);
    NearForm(m, a + 1, JumpKind);
    if !IsLegacyPrefix(m[a]) && m[a] != 0xeb && m[a] != 0xe9 { NotAJump(m, a); }
  }

  lemma NotAJump(m: Mem, a: nat)
    requires a + 6 <= |m| && !IsLegacyPrefix(m[a]) && m[a] != 0xeb && m[a] != 0xe9
    ensures FlowAt(m, a).Relative? ==> !FlowAt(m, a).kind.JumpKind?
  {
  }

  /** `NOP [...]` with the given mod/rm byte and `k` zero bytes of address behind it. */
  function LongNop(modRm: byte, k: nat): seq<byte> { [0x0f, 0x1f, modRm] + Fill(k, 0) }

  /** The padding put between functions: no-ops of one to eleven bytes. */
  function Nop(n: nat): seq<byte>
    requires 1 <= n <= 11
  {
    if n == 1 then [0x90]
    else if n == 3 then LongNop(0x00, 0)
    else if n == 4 then LongNop(0x40, 1)
    else if n == 5 then LongNop(0x44, 2)
    else if n == 7 then LongNop(0x80, 4)
    else if n == 8 then LongNop(0x84, 5)
    else [0x66] + Nop(n - 1)
  }

  predicate IsPadding(m: Mem, a: nat, n: nat)
  {
    1 <= n <= 11 && (Reads(m, a, Nop(n)) || (n == 1 && At(m, a) == 0xcc))
  }

  predicate Reads(m: Mem, a: nat, s: seq<byte>)
    decreases |s|
  {
    s != [] ==> At(m, a) == s[0] && Reads(m, a + 1, s[1..])
  }

  lemma ReadsCons(m: Mem, a: nat, b: byte, s: seq<byte>)
    ensures Reads(m, a, [b] + s) <==> At(m, a) == b && Reads(m, a + 1, s)
  {
    assert ([b] + s)[1..] == s;
  }

  lemma {:induction false} ReadsZeros(m: Mem, a: nat, k: nat)
    ensures Reads(m, a, Fill(k, 0)) <==> Zeros(m, a, k)
    decreases k
  {
    if k > 0 {
      assert Fill(k, 0)[1..] == Fill(k - 1, 0);
      ReadsZeros(m, a + 1, k - 1);
    }
  }

  lemma ReadsLong(m: Mem, a: nat, modRm: byte, k: nat)
    ensures Reads(m, a, LongNop(modRm, k))
       <==> At(m, a) == 0x0f && At(m, a + 1) == 0x1f && At(m, a + 2) == modRm && Zeros(m, a + 3, k)
  {
    hide Reads, Zeros;
    var zeros := Fill(k, 0);
    assert LongNop(modRm, k) == [0x0f] + ([0x1f] + ([modRm] + zeros));
    ReadsCons(m, a, 0x0f, [0x1f] + ([modRm] + zeros));
    ReadsCons(m, a + 1, 0x1f, [modRm] + zeros);
    ReadsCons(m, a + 2, modRm, zeros);
    ReadsZeros(m, a + 3, k);
  }

  lemma LongNops(m: Mem, a: nat)
    ensures Reads(m, a, Nop(3)) <==> FillerTail(m, a) == 3
    ensures Reads(m, a, Nop(4)) <==> FillerTail(m, a) == 4
    ensures Reads(m, a, Nop(5)) <==> FillerTail(m, a) == 5
    ensures Reads(m, a, Nop(7)) <==> FillerTail(m, a) == 7
    ensures Reads(m, a, Nop(8)) <==> FillerTail(m, a) == 8
  {
    hide Reads, LongNop;
    ReadsLong(m, a, 0x00, 0);
    ReadsLong(m, a, 0x40, 1);
    ReadsLong(m, a, 0x44, 2);
    ReadsLong(m, a, 0x80, 4);
    ReadsLong(m, a, 0x84, 5);
  }

  /** What is skipped is a breakpoint or one of the no-ops, whole, and no padding is passed over. */
  lemma FillerMeans(m: Mem, a: nat, n: nat)
    requires n > 0
    ensures IsPadding(m, a, n) <==> Filler(m, a) == n
  {
    hide Reads, Zeros, LongNop, FillerTail;
    LongNops(m, a);
    ShortNops(m, a);
    PrefixedNops(m, a);
    TailHead(m, a);
    TailHead(m, a + 1);
    TailHead(m, a + 2);
    TailHead(m, a + 3);
    match n
    case 1 => case 2 => case 3 => case 4 => case 5 => case 6 =>
    case 7 => case 8 => case 9 => case 10 => case 11 => case _ =>
  }

  lemma TailHead(m: Mem, a: nat)
    ensures FillerTail(m, a) > 0 ==> At(m, a) == 0x0f
  {
  }

  lemma ShortNops(m: Mem, a: nat)
    ensures Reads(m, a, Nop(1)) <==> At(m, a) == 0x90
    ensures Reads(m, a, Nop(2)) <==> At(m, a) == 0x66 && At(m, a + 1) == 0x90
  {
    assert Nop(2) == [0x66] + Nop(1);
    ReadsCons(m, a, 0x66, Nop(1));
  }

  lemma PrefixedNops(m: Mem, a: nat)
    ensures Reads(m, a, Nop(6)) <==> At(m, a) == 0x66 && FillerTail(m, a + 1) == 5
    ensures Reads(m, a, Nop(9)) <==> At(m, a) == 0x66 && FillerTail(m, a + 1) == 8
    ensures Reads(m, a, Nop(10)) <==> At(m, a) == 0x66 && At(m, a + 1) == 0x66 && FillerTail(m, a + 2) == 8
    ensures Reads(m, a, Nop(11))
       <==> At(m, a) == 0x66 && At(m, a + 1) == 0x66 && At(m, a + 2) == 0x66 && FillerTail(m, a + 3) == 8
  {
    hide Reads, FillerTail, LongNop;
    ReadsCons(m, a, 0x66, Nop(5));
    ReadsCons(m, a, 0x66, Nop(8));
    ReadsCons(m, a, 0x66, Nop(9));
    ReadsCons(m, a, 0x66, Nop(10));
    ReadsCons(m, a + 1, 0x66, Nop(8));
    ReadsCons(m, a + 1, 0x66, Nop(9));
    ReadsCons(m, a + 2, 0x66, Nop(8));
    LongNops(m, a + 1);
    LongNops(m, a + 2);
    LongNops(m, a + 3);
  }

  predicate Zeros(m: Mem, a: int, n: nat) decreases n { n > 0 ==> At(m, a) == 0 && Zeros(m, a + 1, n - 1) }

  /** Offsets, from the target and from the trampoline's code, just after a copied instruction. */
  datatype Mark = Mark(target: nat, code: int)

  datatype Run = Run(marks: seq<Mark>, out: seq<byte>)

  /** The copy loop from offsets `ot` and `ob` on. */
  function CopyRun(t: Tables, m: Mem, code: int, target: nat, ot: nat, ob: int): Option<Run>
    decreases SIZE_OF_JMP - ot
  {
    if ot >= SIZE_OF_JMP then Some(Run([], []))
    else
      match CopyAt(t, m, code + ob, target + ot)
      case None => None
      case Some(c) =>
        var mark := Mark(ot + c.len, ob + c.len + c.extra);
        if c.len == 0 then None
        else if EndsFunction(m, target + ot) then Some(Run([mark], c.out))
        else
          match CopyRun(t, m, code, target, mark.target, mark.code)
          case None => None
          case Some(r) => Some(Run([mark] + r.marks, c.out + r.out))
  }

  /** What the copied code must satisfy: every instruction decodes, is no misread encoding, survives the
      move and is no longer than the trampoline was sized for. */
  predicate Movable(t: Tables, m: Mem, code: int, target: nat, ot: nat, ob: int)
    decreases SIZE_OF_JMP - ot
  {
    ot < SIZE_OF_JMP ==>
      && CopyAt(t, m, code + ob, target + ot).Some?
      && var c := CopyAt(t, m, code + ob, target + ot).value;
      && c.len >= 1 && |c.out| <= MAX_MOVED
      && (FlowAt(m, target + ot).Relative? ==> Relocatable(m, code + ob, target + ot, false))
      && !Misread(m, target + ot)
      && (EndsFunction(m, target + ot) || Movable(t, m, code, target, ot + c.len, ob + c.len + c.extra))
  }

  lemma {:induction false} SizeKept(t: Tables, m: Mem, dst: int, src: nat, fl: Flags, c: Copied)
    requires TablesOk(t) && src < |m| && CopyEntry(t, m, dst, src, t.One(m[src]), fl) == Some(c)
    requires FlowFrom(m, src, fl.op16, fl.addr16).Relative? ==> Relocatable(m, dst, src, fl.op16)
    ensures |c.out| == c.len + c.extra && c.len >= 1 && 0 <= c.extra <= 4 && (c.len == 1 ==> c.extra == 0)
    ensures FlowFrom(m, src, fl.op16, fl.addr16).Relative? ==> FlowFrom(m, src, fl.op16, fl.addr16).next == src + c.len
    decreases |m| - src
  {
    var op := m[src];
    var f := FlowFrom(m, src, fl.op16, fl.addr16);
    if !f.Relative? {
      PlainKept(t, m, dst, src, fl, c);
    } else if IsLegacyPrefix(op) {
      var rest := PrefixStep(t, m, dst, src, fl, c);
      var fl' := AfterPrefix(fl, op);
      assert f == FlowFrom(m, src + 1, fl'.op16, fl'.addr16);
      SizeKept(t, m, dst + 1, src + 1, fl', rest);
    } else {
      assert OneRowOk(op, t.One(op));
      TransferSize(t, m, dst, src, fl, c);
    }
  }

  lemma ShortSize(t: Tables, m: Mem, dst: int, src: nat, fl: Flags, c: Copied)
    requires TablesOk(t) && src < |m| && IsShort(m[src])
    requires CopyEntry(t, m, dst, src, t.One(m[src]), fl) == Some(c)
    ensures |c.out| == c.len + c.extra && c.len == 2 && 3 <= c.extra <= 4
    ensures FlowFrom(m, src, fl.op16, fl.addr16).Relative?
    ensures FlowFrom(m, src, fl.op16, fl.addr16).next == src + c.len
  {
    hide SizesOk;
    assert OneRowOk(m[src], t.One(m[src]));
  }

  lemma TransferSize(t: Tables, m: Mem, dst: int, src: nat, fl: Flags, c: Copied)
    requires TablesOk(t) && src < |m| && !IsLegacyPrefix(m[src])
    requires CopyEntry(t, m, dst, src, t.One(m[src]), fl) == Some(c)
    requires FlowFrom(m, src, fl.op16, fl.addr16).Relative? && Relocatable(m, dst, src, fl.op16)
    ensures |c.out| == c.len + c.extra && c.len >= 2 && 0 <= c.extra <= 4
    ensures FlowFrom(m, src, fl.op16, fl.addr16).next == src + c.len
  {
    hide SizesOk;
    var op := m[src];
    assert OneRowOk(op, t.One(op));
    if IsShort(op) {
      ShortSize(t, m, dst, src, fl, c);
    } else if IsLoop(op) {
      LoopCopied(m, dst, src, fl, c);
      LoopForm(m, src, fl.op16, fl.addr16);
    } else if IsNear(op) {
      NearTargetEntry(t, m, dst, src, fl, c);
      NearCopied(m, dst, src, fl, c);
      OpcodeForm(m, src, fl.op16, fl.addr16);
    } else if op == 0xc7 {
      AbortCopied(t, m, dst, src, fl, c);
      AbortForm(m, src, fl.op16, fl.addr16);
    } else {
      var inner := TwoByteStep(t, m, dst, src, fl, c);
      NearCondRow(t, m[src + 1]);
      NearTargetEntry(t, m, dst + 1, src + 1, fl, inner);
      NearCopied(m, dst + 1, src + 1, fl, inner);
      NewOffsetShift(Displacement(m, src + 2, if fl.op16 then 2 else 4), dst, src);
      OpcodeForm(m, src, fl.op16, fl.addr16);
    }
  }

  /** Most bytes the copy loop can still emit once `ot` source bytes are consumed. */
  function Budget(ot: nat): nat
  {
    if ot == 0 then 25 else if ot == 1 then 20 else if ot == 2 then 19 else if ot == 3 then 14
    else if ot == 4 then 13 else 0
  }

  /** The marks of a run started at (`ot`, `ob`). */
  ghost predicate MarksFrom(marks: seq<Mark>, ot: nat, ob: int)
  {
    && (forall i :: 0 <= i < |marks| ==> marks[i].target > ot && marks[i].code > ob)
    && (forall i, j :: 0 <= i < j < |marks| ==> marks[i].target < marks[j].target && marks[i].code < marks[j].code)
    && (forall i :: 0 <= i < |marks| - 1 ==> marks[i].target < SIZE_OF_JMP)
    && (forall i :: 0 <= i < |marks| ==> marks[i].target < SIZE_OF_JMP + MAX_MOVED)
  }

  lemma SizeKeptAt(t: Tables, m: Mem, dst: int, src: nat, c: Copied)
    requires TablesOk(t) && CopyAt(t, m, dst, src) == Some(c)
    requires FlowAt(m, src).Relative? ==> Relocatable(m, dst, src, false)
    ensures |c.out| == c.len + c.extra && c.len >= 1 && 0 <= c.extra <= 4 && (c.len == 1 ==> c.extra == 0)
    ensures FlowAt(m, src).Relative? ==> FlowAt(m, src).next == src + c.len
    ensures src < |m|
  {
    hide CopyEntry, FlowFrom, Relocatable, TablesOk;
    SizeKept(t, m, dst, src, NO_FLAGS, c);
  }

  /** One turn of the copy loop. */
  lemma RunStep(t: Tables, m: Mem, code: int, target: nat, ot: nat, ob: int, r: Run) returns (c: Copied, rest: Run)
    requires TablesOk(t) && ot < SIZE_OF_JMP && Movable(t, m, code, target, ot, ob)
    requires CopyRun(t, m, code, target, ot, ob) == Some(r)
    ensures CopyAt(t, m, code + ob, target + ot) == Some(c)
    ensures FlowAt(m, target + ot).Relative? ==> Relocatable(m, code + ob, target + ot, false)
    ensures !Misread(m, target + ot)
    ensures |c.out| == c.len + c.extra && 1 <= c.len <= |c.out| <= c.len + (if c.len == 1 then 0 else 4)
            && |c.out| <= MAX_MOVED
    ensures r.marks == [Mark(ot + c.len, ob + |c.out|)] + rest.marks && r.out == c.out + rest.out
    ensures (rest == Run([], []) && EndsFunction(m, target + ot))
            || (!EndsFunction(m, target + ot) && Movable(t, m, code, target, ot + c.len, ob + |c.out|)
                && CopyRun(t, m, code, target, ot + c.len, ob + |c.out|) == Some(rest))
  {
    hide CopyAt, FlowFrom, FlowAt, Relocatable, EndsFunction, TablesOk, Misread;
    c := CopyAt(t, m, code + ob, target + ot).value;
    SizeKeptAt(t, m, code + ob, target + ot, c);
    rest := if EndsFunction(m, target + ot) then Run([], [])
    else CopyRun(t, m, code, target, ot + c.len, ob + |c.out|).value;
  }

  lemma RunDone(t: Tables, m: Mem, code: int, target: nat, ot: nat, ob: int)
    ensures ot >= SIZE_OF_JMP ==> CopyRun(t, m, code, target, ot, ob) == Some(Run([], []))
  {
  }

  function StartOf(marks: seq<Mark>, ot: nat, i: nat): nat
    requires i <= |marks|
  {
    if i == 0 then ot else marks[i - 1].target
  }

  /** A run goes on exactly as long as it must: behind an instruction that ends the function nothing is
      copied, and it stops before five bytes only there. */
  lemma {:induction false} RunStops(t: Tables, m: Mem, code: int, target: nat, ot: nat, ob: int, r: Run, i: nat)
    requires TablesOk(t) && Movable(t, m, code, target, ot, ob)
    requires CopyRun(t, m, code, target, ot, ob) == Some(r) && i < |r.marks|
    ensures i < |r.marks| - 1 ==>
              r.marks[i].target < SIZE_OF_JMP && !EndsFunction(m, target + StartOf(r.marks, ot, i))
    ensures i == |r.marks| - 1 ==>
              r.marks[i].target >= SIZE_OF_JMP || EndsFunction(m, target + StartOf(r.marks, ot, i))
    decreases SIZE_OF_JMP - ot
  {
    hide CopyAt, CopyRun, Movable, EndsFunction, TablesOk, FlowFrom, FlowAt, Relocatable, Misread;
    RunDone(t, m, code, target, ot, ob);
    var c, rest := RunStep(t, m, code, target, ot, ob, r);
    if rest.marks != [] {
      RunDone(t, m, code, target, ot + c.len, ob + |c.out|);
      if i > 0 {
        assert StartOf(r.marks, ot, i) == StartOf(rest.marks, ot + c.len, i - 1);
        RunStops(t, m, code, target, ot + c.len, ob + |c.out|, rest, i - 1);
      }
    } else if !EndsFunction(m, target + ot) {
      RunBound(t, m, code, target, ot + c.len, ob + |c.out|, rest);
    }
  }

  /** The trampoline bound: at most five instructions and at most 25 bytes of moved code. */
  lemma {:induction false} RunBound(t: Tables, m: Mem, code: int, target: nat, ot: nat, ob: int, r: Run)
    requires TablesOk(t) && Movable(t, m, code, target, ot, ob)
    requires CopyRun(t, m, code, target, ot, ob) == Some(r)
    ensures |r.marks| <= SIZE_OF_JMP - ot || (ot >= SIZE_OF_JMP && r == Run([], []))
    ensures |r.out| <= Budget(ot)
    ensures ot < SIZE_OF_JMP ==> |r.marks| >= 1
    decreases SIZE_OF_JMP - ot
  {
    hide CopyAt, CopyRun, Movable, EndsFunction, TablesOk, FlowFrom, FlowAt, Relocatable, Misread;
    RunDone(t, m, code, target, ot, ob);
    if ot < SIZE_OF_JMP {
      var c, rest := RunStep(t, m, code, target, ot, ob, r);
      if rest != Run([], []) {
        RunBound(t, m, code, target, ot + c.len, ob + |c.out|, rest);
      }
    }
  }

  /** The worst case is two enlarged conditional jumps before the last instruction. */
  lemma RunWorstCase(t: Tables, m: Mem, code: int, target: nat, r: Run)
    requires TablesOk(t) && Movable(t, m, code, target, 0, 0)
    requires CopyRun(t, m, code, target, 0, 0) == Some(r)
    ensures |r.out| == 25 ==> |r.marks| == 3 && r.marks[0] == Mark(2, 6) && r.marks[1] == Mark(4, 12)
  {
    hide CopyAt, CopyRun, Movable, EndsFunction, TablesOk, FlowFrom, FlowAt, Relocatable, Misread;
    var c, rest := RunStep(t, m, code, target, 0, 0, r);
    if |r.out| == 25 {
      RunBound(t, m, code, target, c.len, |c.out|, rest);
      assert c.len == 2 && |c.out| == 6 && |rest.out| == 19;
      var c', rest' := RunStep(t, m, code, target, 2, 6, rest);
      RunBound(t, m, code, target, 2 + c'.len, 6 + |c'.out|, rest');
      assert c'.len == 2 && |c'.out| == 6 && |rest'.out| == 13;
    }
  }

  lemma {:induction false} RunMarks(t: Tables, m: Mem, code: int, target: nat, ot: nat, ob: int, r: Run)
    requires TablesOk(t) && Movable(t, m, code, target, ot, ob)
    requires CopyRun(t, m, code, target, ot, ob) == Some(r)
    ensures MarksFrom(r.marks, ot, ob)
    ensures r.marks != [] ==> r.marks[|r.marks| - 1].code == ob + |r.out|
    decreases SIZE_OF_JMP - ot
  {
    hide CopyAt, CopyRun, Movable, EndsFunction, TablesOk, FlowFrom, FlowAt, Relocatable, Misread;
    RunDone(t, m, code, target, ot, ob);
    if ot < SIZE_OF_JMP {
      var c, rest := RunStep(t, m, code, target, ot, ob, r);
      if rest != Run([], []) {
        RunMarks(t, m, code, target, ot + c.len, ob + |c.out|, rest);
        RunBound(t, m, code, target, ot + c.len, ob + |c.out|, rest);
        RunDone(t, m, code, target, ot + c.len, ob + |c.out|);
      }
      var first := Mark(ot + c.len, ob + |c.out|);
      MarksCons(first, rest.marks, ot, ob);
    }
  }

  lemma MarksCons(first: Mark, rest: seq<Mark>, ot: nat, ob: int)
    requires ot < first.target <= ot + MAX_MOVED && ot < SIZE_OF_JMP && ob < first.code
    requires MarksFrom(rest, first.target, first.code)
    requires rest != [] ==> first.target < SIZE_OF_JMP
    ensures MarksFrom([first] + rest, ot, ob)
  {
    var s := [first] + rest;
    assert forall i :: 0 < i < |s| ==> s[i] == rest[i - 1];
  }

  /** Between two marks lies one whole instruction, and it means in the trampoline what it meant in the
      target. */
  ghost predicate Faithful(m: Mem, n: Mem, code: int, target: nat, p: Mark, q: Mark)
  {
    && p.target < q.target && 0 <= code + p.code <= code + q.code <= |n| && target + q.target <= |m|
    && EndAt(m, target + p.target) == Some(target + q.target)
    && var before := FlowAt(m, target + p.target);
    if before.Relative? then
      before.next == target + q.target && SameTransfer(before, FlowAt(n, code + p.code), code + q.code)
    else m[target + p.target..target + q.target] == n[code + p.code..code + q.code]
  }

  ghost predicate FaithfulRun(m: Mem, n: Mem, code: int, target: nat, p: Mark, marks: seq<Mark>)
    decreases |marks|
  {
    marks != [] ==> Faithful(m, n, code, target, p, marks[0]) && FaithfulRun(m, n, code, target, marks[0], marks[1..])
  }

  lemma FaithfulStep(t: Tables, m: Mem, n: Mem, code: nat, target: nat, ot: nat, ob: nat, c: Copied)
    requires TablesOk(t) && CopyAt(t, m, code + ob, target + ot) == Some(c)
    requires FlowAt(m, target + ot).Relative? ==> Relocatable(m, code + ob, target + ot, false)
    requires !Misread(m, target + ot)
    requires Holds(n, code + ob, c.out)
    ensures c.len + c.extra == |c.out|
    ensures Faithful(m, n, code, target, Mark(ot, ob), Mark(ot + c.len, ob + |c.out|))
  {
    hide CopyAt, CopyEntry, FlowFrom, FlowAt, Relocatable, TablesOk, EndAt, Misread;
    LengthReadAt(t, m, code + ob, target + ot, c);
    SizeKeptAt(t, m, code + ob, target + ot, c);
    if FlowAt(m, target + ot).Relative? {
      TransferKeptAt(t, m, n, code + ob, target + ot, c);
      RelativeInsideAt(m, target + ot);
    } else {
      PlainKeptAt(t, m, code + ob, target + ot, c);
    }
  }

  lemma TransferKeptAt(t: Tables, m: Mem, n: Mem, dst: nat, src: nat, c: Copied)
    requires TablesOk(t) && CopyAt(t, m, dst, src) == Some(c) && Holds(n, dst, c.out)
    requires FlowAt(m, src).Relative?
    ensures SameTransfer(FlowAt(m, src), FlowAt(n, dst), dst + c.len + c.extra) <==> Relocatable(m, dst, src, false)
  {
    hide CopyEntry, FlowFrom, Relocatable, TablesOk;
    TransferKept(t, m, n, dst, src, NO_FLAGS, c);
  }

  lemma PlainKeptAt(t: Tables, m: Mem, dst: nat, src: nat, c: Copied)
    requires TablesOk(t) && CopyAt(t, m, dst, src) == Some(c) && !FlowAt(m, src).Relative?
    ensures src + c.len <= |m| && c == Copied(m[src..src + c.len], c.len, 0) && c.len >= 1
  {
    hide CopyEntry, FlowFrom, TablesOk;
    PlainKept(t, m, dst, src, NO_FLAGS, c);
  }

  lemma RelativeInsideAt(m: Mem, a: nat)
    requires FlowAt(m, a).Relative?
    ensures FlowAt(m, a).next <= |m|
  {
    hide FlowFrom;
    RelativeInside(m, a, false, false);
  }

  lemma {:induction false} RelativeInside(m: Mem, a: nat, op16: bool, addr16: bool)
    requires FlowFrom(m, a, op16, addr16).Relative?
    ensures FlowFrom(m, a, op16, addr16).next <= |m|
    decreases |m| - a
  {
    if IsLegacyPrefix(m[a]) {
      RelativeInside(m, a + 1, op16 || m[a] == 0x66, addr16 || m[a] == 0x67);
    }
  }

  /** Moving a run keeps the meaning of every instruction in it. */
  lemma {:induction false} RunFaithful(t: Tables, m: Mem, n: Mem, code: nat, target: nat, ot: nat, ob: nat, r: Run)
    requires TablesOk(t) && Movable(t, m, code, target, ot, ob)
    requires CopyRun(t, m, code, target, ot, ob) == Some(r)
    requires Holds(n, code + ob, r.out)
    ensures FaithfulRun(m, n, code, target, Mark(ot, ob), r.marks)
    decreases SIZE_OF_JMP - ot
  {
    hide CopyAt, CopyRun, Movable, EndsFunction, TablesOk, FlowFrom, FlowAt, Relocatable, Misread, Faithful, Holds;
    RunDone(t, m, code, target, ot, ob);
    if ot < SIZE_OF_JMP {
      var c, rest := RunStep(t, m, code, target, ot, ob, r);
      HeldSplit(n, code + ob, c.out, rest.out);
      FaithfulStep(t, m, n, code, target, ot, ob, c);
      if rest.marks != [] {
        RunFaithful(t, m, n, code, target, ot + c.len, ob + |c.out|, rest);
      }
      assert r.marks[1..] == rest.marks;
    }
  }

  // ---------------------------------------------------------------------- thread fix-up

  /** One rAlign entry: three bits of target offset, five of trampoline offset. */
  function AlignByte(k: Mark): byte { k.target % 8 + 8 * (k.code % 32) }

  function AlignBytes(marks: seq<Mark>): seq<byte>
  {
    if marks == [] then [] else [AlignByte(marks[0])] + AlignBytes(marks[1..])
  }

  /** detour_align_from_target over the entries `s`. */
  function FromTarget(s: seq<byte>, ob: int): int
  {
    if s == [] then 0 else if s[0] % 8 == ob then s[0] / 8 else FromTarget(s[1..], ob)
  }

  /** detour_align_from_trampoline over the entries `s`. */
  function FromTrampoline(s: seq<byte>, ob: int): int
  {
    if s == [] then 0 else if s[0] / 8 == ob then s[0] % 8 else FromTrampoline(s[1..], ob)
  }

  /** The rAlign array of a finished run: its marks, then entries that were never written. */
  function Align(marks: seq<Mark>): seq<byte>
  {
    AlignBytes(marks) + Fill(if |marks| <= ALIGN_SIZE then ALIGN_SIZE - |marks| else 0, 0)
  }

  lemma {:induction false} AlignLength(marks: seq<Mark>)
    ensures |AlignBytes(marks)| == |marks|
    ensures forall i :: 0 <= i < |marks| ==> AlignBytes(marks)[i] == AlignByte(marks[i])
  {
    if marks != [] { AlignLength(marks[1..]); }
  }

  lemma {:induction false} ZerosGiveZero(n: nat, ob: int)
    ensures FromTarget(Fill(n, 0), ob) == 0 && FromTrampoline(Fill(n, 0), ob) == 0
  {
    if n > 0 {
      assert Fill(n, 0)[1..] == Fill(n - 1, 0);
      ZerosGiveZero(n - 1, ob);
    }
  }

  /** A lookup stops at the first matching entry. */
  lemma {:induction false} FirstMatch(marks: seq<Mark>, pad: seq<byte>, i: nat, ob: int)
    requires i < |marks|
    ensures marks[i].target % 8 == ob && (forall j :: 0 <= j < i ==> marks[j].target % 8 != ob) ==>
              FromTarget(AlignBytes(marks) + pad, ob) == marks[i].code % 32
    ensures marks[i].code % 32 == ob && (forall j :: 0 <= j < i ==> marks[j].code % 32 != ob) ==>
              FromTrampoline(AlignBytes(marks) + pad, ob) == marks[i].target % 8
  {
    var s := AlignBytes(marks) + pad;
    assert s[1..] == AlignBytes(marks[1..]) + pad;
    if i > 0 {
      assert forall j :: 0 <= j < i - 1 ==> marks[1..][j] == marks[j + 1];
      FirstMatch(marks[1..], pad, i - 1, ob);
    }
  }

  lemma {:induction false} NoMatch(marks: seq<Mark>, n: nat, ob: int)
    ensures (forall j :: 0 <= j < |marks| ==> marks[j].target % 8 != ob) ==>
              FromTarget(AlignBytes(marks) + Fill(n, 0), ob) == 0
    ensures (forall j :: 0 <= j < |marks| ==> marks[j].code % 32 != ob) ==>
              FromTrampoline(AlignBytes(marks) + Fill(n, 0), ob) == 0
  {
    if marks == [] {
      ZerosGiveZero(n, ob);
      assert AlignBytes(marks) + Fill(n, 0) == Fill(n, 0);
    } else {
      assert (AlignBytes(marks) + Fill(n, 0))[1..] == AlignBytes(marks[1..]) + Fill(n, 0);
      NoMatch(marks[1..], n, ob);
    }
  }

  /** Marks of a complete run, with the offsets the trampoline bound guarantees. */
  ghost predicate CompleteMarks(marks: seq<Mark>)
  {
    1 <= |marks| <= SIZE_OF_JMP && MarksFrom(marks, 0, 0) && forall i :: 0 <= i < |marks| ==> marks[i].code <= 25
  }

  /** A thread stopped at the start of a copied instruction of the target (the first one included,
      the end of the run excluded) is moved to the same instruction of the trampoline. */
  ghost predicate AttachFixupExact(marks: seq<Mark>)
  {
    && FromTarget(Align(marks), 0) == 0
    && forall i :: 0 <= i < |marks| - 1 ==> FromTarget(Align(marks), marks[i].target) == marks[i].code
  }

  /** A thread stopped at the start of an instruction of the trampoline (the final jump included) is
      moved to the same instruction of the target. */
  ghost predicate DetachFixupExact(marks: seq<Mark>)
  {
    && FromTrampoline(Align(marks), 0) == 0
    && forall i :: 0 <= i < |marks| ==> FromTrampoline(Align(marks), marks[i].code) == marks[i].target
  }

  lemma LookupTarget(marks: seq<Mark>, i: nat)
    requires CompleteMarks(marks) && i < |marks|
    ensures i < |marks| - 1 || marks[i].target <= 7 ==> FromTarget(Align(marks), marks[i].target) == marks[i].code
    ensures marks[i].target % 8 == 0 ==> FromTarget(Align(marks), 0) == marks[i].code
  {
    hide FromTarget, FromTrampoline, AlignBytes;
    FirstMatch(marks, Fill(ALIGN_SIZE - |marks|, 0), i, marks[i].target % 8);
  }

  lemma LookupTrampoline(marks: seq<Mark>, i: nat)
    requires CompleteMarks(marks) && i < |marks|
    ensures FromTrampoline(Align(marks), marks[i].code) == marks[i].target % 8
  {
    hide FromTarget, FromTrampoline, AlignBytes;
    FirstMatch(marks, Fill(ALIGN_SIZE - |marks|, 0), i, marks[i].code);
  }

  /** Entering the trampoline is exact unless the run's length is 8 or 16: the three-bit field then
      holds 0 and captures the look-up of the entry point. */
  lemma AttachFixup(marks: seq<Mark>)
    requires CompleteMarks(marks)
    ensures AttachFixupExact(marks) <==> marks[|marks| - 1].target % 8 != 0
  {
    hide FromTarget, Align;
    var last := |marks| - 1;
    forall i | 0 <= i < last ensures FromTarget(Align(marks), marks[i].target) == marks[i].code {
      LookupTarget(marks, i);
    }
    LookupTarget(marks, last);
    EntryLookup(marks);
  }

  lemma EntryLookup(marks: seq<Mark>)
    requires CompleteMarks(marks)
    ensures marks[|marks| - 1].target % 8 != 0 ==> FromTarget(Align(marks), 0) == 0
    ensures FromTrampoline(Align(marks), 0) == 0
  {
    hide FromTarget, FromTrampoline, AlignBytes;
    NoMatch(marks, ALIGN_SIZE - |marks|, 0);
  }

  /** Leaving the trampoline is exact exactly when the run is at most seven bytes long. */
  lemma DetachFixup(marks: seq<Mark>)
    requires CompleteMarks(marks)
    ensures DetachFixupExact(marks) <==> marks[|marks| - 1].target <= 7
  {
    hide FromTrampoline, Align;
    EntryLookup(marks);
    forall i | 0 <= i < |marks| ensures FromTrampoline(Align(marks), marks[i].code) == marks[i].target % 8 {
      LookupTrampoline(marks, i);
    }
    var last := |marks| - 1;
    assert FromTrampoline(Align(marks), marks[last].code) == marks[last].target % 8;
  }

  /** For a run of at most seven bytes the two look-ups are inverse bijections between the
      instruction boundaries of the target and those of the trampoline. */
  lemma FixupInverse(marks: seq<Mark>, i: nat)
    requires CompleteMarks(marks) && marks[|marks| - 1].target <= 7 && i < |marks|
    ensures FromTarget(Align(marks), FromTrampoline(Align(marks), marks[i].code)) == marks[i].code
    ensures FromTrampoline(Align(marks), FromTarget(Align(marks), marks[i].target)) == marks[i].target
  {
    LookupTarget(marks, i);
    LookupTrampoline(marks, i);
  }
}

/** Filling a trampoline from the target's code (the middle of DetourAttachEx). */
module DetourCopy {
  import opened Options
  import opened Memory
  import opened X86Flow
  import opened X86Length
  import opened X86Disasm
  import opened X86Relocation
  import opened X86Sizes
  import opened X86Copier
  import opened X86Trampoline
  import opened HookLayers

  /** How far beyond the target's address attaching may look. */
  const WINDOW := 32

  ghost predicate SameWindow(m: Mem, n: Mem, target: nat)
  {
    target + WINDOW <= |m| && Agree(m, n, target, target + WINDOW)
  }

  // --------------------------------------------------------------- what the copy depends on

  lemma {:induction false} FlowLocal(t: Tables, m: Mem, n: Mem, dst: int, src: nat, fl: Flags, c: Copied)
    requires TablesOk(t) && src < |m| && CopyEntry(t, m, dst, src, t.One(m[src]), fl) == Some(c)
    requires Agree(m, n, src, src + c.len) && c.len >= 1
    ensures FlowFrom(n, src, fl.op16, fl.addr16) == FlowFrom(m, src, fl.op16, fl.addr16)
    ensures Relocatable(n, dst, src, fl.op16) == Relocatable(m, dst, src, fl.op16)
    decreases |m| - src
  {
    hide CopyEntry, TablesOk, NearFlow, Land, Fits, NewOffset, Displacement, NearFits;
    var op := m[src];
    if IsLegacyPrefix(op) {
      var rest := PrefixStep(t, m, dst, src, fl, c);
      RowsUsable(t, m[src + 1]);
      CopyLocal(t, m, n, dst + 1, src + 1, t.One(m[src + 1]), AfterPrefix(fl, op), rest);
      FlowLocal(t, m, n, dst + 1, src + 1, AfterPrefix(fl, op), rest);
    } else if op == 0x0f {
      var inner := TwoByteStep(t, m, dst, src, fl, c);
      RowsUsable(t, m[src + 1]);
      CopyLocal(t, m, n, dst + 1, src + 1, t.Two(m[src + 1]), fl, inner);
      NearCondRow(t, m[src + 1]);
      if IsNearCond(m[src + 1]) {
        NearTargetEntry(t, m, dst + 1, src + 1, fl, inner);
        NearCopied(m, dst + 1, src + 1, fl, inner);
        NearLocal(m, n, dst, src, src + 2, CondKind(m[src + 1] % 0x10), fl.op16);
      }
    } else if IsNear(op) {
      assert t.One(op) == BYTES3_OR5_TARGET by { NearRow(t, op); }
      NearTargetEntry(t, m, dst, src, fl, c);
      NearCopied(m, dst, src, fl, c);
      NearLocal(m, n, dst, src, src + 1, NearKind(op), fl.op16);
    } else if IsShort(op) || IsLoop(op) {
      TwoBytes(t, m, dst, src, fl, c);
    } else if op == 0xc7 {
      AbortRow(t, m, dst, src, fl, c);
      if IsAbort(m, src) {
        AbortCopied(t, m, dst, src, fl, c);
        AbortLocal(m, n, src + 2, fl.op16);
      }
    }
  }

  lemma AbortRow(t: Tables, m: Mem, dst: int, src: nat, fl: Flags, c: Copied)
    requires TablesOk(t) && src < |m| && m[src] == 0xc7 && CopyEntry(t, m, dst, src, t.One(m[src]), fl) == Some(c)
    ensures c.len >= 2 && src + 1 < |m|
  {
    assert OneRowOk(0xc7, t.One(0xc7));
  }

  lemma AbortLocal(m: Mem, n: Mem, a: nat, op16: bool)
    requires a + (if op16 then 2 else 4) <= |m| && Agree(m, n, a, a + (if op16 then 2 else 4))
    ensures AbortFlow(m, a, op16) == AbortFlow(n, a, op16)
  {
    hide Land, Signed;
    assert At(m, a) == At(n, a) && At(m, a + 1) == At(n, a + 1);
    assert !op16 ==> At(m, a + 2) == At(n, a + 2) && At(m, a + 3) == At(n, a + 3);
  }

  lemma NearRow(t: Tables, op: byte)
    requires TablesOk(t)
    ensures IsNear(op) ==> t.One(op) == BYTES3_OR5_TARGET
  {
    assert OneRowOk(op, t.One(op));
  }

  lemma TwoBytes(t: Tables, m: Mem, dst: int, src: nat, fl: Flags, c: Copied)
    requires TablesOk(t) && src < |m| && CopyEntry(t, m, dst, src, t.One(m[src]), fl) == Some(c)
    requires IsShort(m[src]) || IsLoop(m[src])
    ensures c.len == 2 && src + 2 <= |m|
  {
    assert OneRowOk(m[src], t.One(m[src]));
    if IsLoop(m[src]) { LoopCopied(m, dst, src, fl, c); }
  }

  lemma NearLocal(m: Mem, n: Mem, dst: int, src: nat, a: nat, kind: Kind, op16: bool)
    requires a + (if op16 then 2 else 4) <= |m| && Agree(m, n, a, a + (if op16 then 2 else 4))
    ensures NearFlow(m, a, kind, op16) == NearFlow(n, a, kind, op16)
    ensures NearFits(m, dst, src, a, op16) == NearFits(n, dst, src, a, op16)
  {
    hide Land, Fits, NewOffset, Signed;
    assert At(m, a) == At(n, a) && At(m, a + 1) == At(n, a + 1);
    assert !op16 ==> At(m, a + 2) == At(n, a + 2) && At(m, a + 3) == At(n, a + 3);
  }

  lemma CopyAtLocal(t: Tables, m: Mem, n: Mem, dst: int, src: nat, c: Copied)
    requires TablesOk(t) && CopyAt(t, m, dst, src) == Some(c) && Agree(m, n, src, src + c.len) && c.len >= 1
    ensures CopyAt(t, n, dst, src) == Some(c)
    ensures FlowAt(n, src) == FlowAt(m, src)
    ensures Relocatable(n, dst, src, false) == Relocatable(m, dst, src, false)
    ensures Misread(n, src) == Misread(m, src)
  {
    hide CopyEntry, TablesOk, FlowFrom, Relocatable, RowUsable, MisreadFrom;
    RowsUsable(t, m[src]);
    MisreadLocal(t, m, n, dst, src, NO_FLAGS, c);
    CopyLocal(t, m, n, dst, src, t.One(m[src]), NO_FLAGS, c);
    FlowLocal(t, m, n, dst, src, NO_FLAGS, c);
  }

  lemma EndsLocal(m: Mem, n: Mem, target: nat, ot: nat)
    requires SameWindow(m, n, target) && ot < SIZE_OF_JMP
    ensures EndsFunction(m, target + ot) == EndsFunction(n, target + ot)
  {
    var a := target + ot;
    assert At(m, a) == At(n, a) && At(m, a + 1) == At(n, a + 1) && At(m, a + 2) == At(n, a + 2);
  }

  lemma {:induction false} RunLocal(t: Tables, m: Mem, n: Mem, code: int, target: nat, ot: nat, ob: int, r: Run)
    requires TablesOk(t) && SameWindow(m, n, target)
    requires Movable(t, m, code, target, ot, ob) && CopyRun(t, m, code, target, ot, ob) == Some(r)
    ensures Movable(t, n, code, target, ot, ob) && CopyRun(t, n, code, target, ot, ob) == Some(r)
    decreases SIZE_OF_JMP - ot
  {
    if ot < SIZE_OF_JMP {
      var c, rest := RunStep(t, m, code, target, ot, ob, r);
      RunStepLocal(t, m, n, code, target, ot, ob, r, c, rest);
    }
  }

  /** One turn of the loop, read the other way round. */
  lemma RunFold(t: Tables, m: Mem, code: int, target: nat, ot: nat, ob: int, c: Copied, rest: Run)
    requires ot < SIZE_OF_JMP && CopyAt(t, m, code + ob, target + ot) == Some(c)
    requires FlowAt(m, target + ot).Relative? ==> Relocatable(m, code + ob, target + ot, false)
    requires !Misread(m, target + ot)
    requires |c.out| == c.len + c.extra && 1 <= c.len && |c.out| <= MAX_MOVED
    requires EndsFunction(m, target + ot) ||
             (Movable(t, m, code, target, ot + c.len, ob + |c.out|)
              && CopyRun(t, m, code, target, ot + c.len, ob + |c.out|) == Some(rest))
    ensures Movable(t, m, code, target, ot, ob)
    ensures var mark := Mark(ot + c.len, ob + |c.out|);
            CopyRun(t, m, code, target, ot, ob)
            == Some(if EndsFunction(m, target + ot) then Run([mark], c.out)
                    else Run([mark] + rest.marks, c.out + rest.out))
  {
    hide CopyAt, FlowAt, Relocatable, EndsFunction, Misread;
  }

  lemma {:induction false} RunStepLocal(t: Tables, m: Mem, n: Mem, code: int, target: nat, ot: nat, ob: int,
                                        r: Run, c: Copied, rest: Run)
    requires TablesOk(t) && SameWindow(m, n, target) && ot < SIZE_OF_JMP
    requires CopyAt(t, m, code + ob, target + ot) == Some(c)
    requires FlowAt(m, target + ot).Relative? ==> Relocatable(m, code + ob, target + ot, false)
    requires !Misread(m, target + ot)
    requires |c.out| == c.len + c.extra && 1 <= c.len <= |c.out| && |c.out| <= MAX_MOVED
    requires r == Run([Mark(ot + c.len, ob + |c.out|)] + rest.marks, c.out + rest.out)
    requires (rest == Run([], []) && EndsFunction(m, target + ot))
             || (!EndsFunction(m, target + ot) && Movable(t, m, code, target, ot + c.len, ob + |c.out|)
                 && CopyRun(t, m, code, target, ot + c.len, ob + |c.out|) == Some(rest))
    ensures Movable(t, n, code, target, ot, ob) && CopyRun(t, n, code, target, ot, ob) == Some(r)
    decreases SIZE_OF_JMP - ot, 0
  {
    hide CopyAt, FlowAt, FlowFrom, Relocatable, EndsFunction, Misread, TablesOk, CopyRun, Movable;
    CopyAtLocal(t, m, n, code + ob, target + ot, c);
    EndsLocal(m, n, target, ot);
    if !EndsFunction(m, target + ot) {
      RunLocal(t, m, n, code, target, ot + c.len, ob + |c.out|, rest);
    }
    RunFold(t, n, code, target, ot, ob, c, rest);
    if EndsFunction(m, target + ot) {
      assert [Mark(ot + c.len, ob + |c.out|)] + [] == [Mark(ot + c.len, ob + |c.out|)] && c.out + [] == c.out;
    }
  }

  // ------------------------------------------------------------------------------ the copy loop

  /** Offset of the first byte that is not padding, looking no further than a jump needs. */
  function SkipFillers(m: Mem, target: int, ot: nat): (r: nat)
    ensures ot <= r <= (if ot < SIZE_OF_JMP then 15 else ot)
    decreases SIZE_OF_JMP - ot
  {
    if ot >= SIZE_OF_JMP || Filler(m, target + ot) == 0 then ot
    else SkipFillers(m, target, ot + Filler(m, target + ot))
  }

  /** The bytes from `a` up to `b` are padding, piece by piece. */
  ghost predicate Padded(m: Mem, a: nat, b: nat)
    requires a <= b
    decreases b - a
  {
    a == b || exists n :: 0 < n <= b - a && IsPadding(m, a, n) && Padded(m, a + n, b)
  }

  /** What the jump may overwrite behind the moved code is padding, and it is counted as far as the jump
      needs or as it goes. */
  lemma {:induction false} SkipMeans(m: Mem, target: nat, ot: nat)
    ensures Padded(m, target + ot, target + SkipFillers(m, target, ot))
    ensures var end := SkipFillers(m, target, ot);
            end >= SIZE_OF_JMP || NoPadding(m, target + end)
    ensures ot < SkipFillers(m, target, ot) ==> ot < SIZE_OF_JMP
    decreases SIZE_OF_JMP - ot
  {
    hide IsPadding, Filler;
    var n := Filler(m, target + ot);
    SkipStepOrEnd(m, target, ot);
    if ot < SIZE_OF_JMP && n > 0 {
      SkipMeans(m, target, ot + n);
      FillerMeans(m, target + ot, n);
      assert IsPadding(m, target + ot, n);
      assert Padded(m, target + ot + n, target + SkipFillers(m, target, ot));
    } else if ot < SIZE_OF_JMP {
      NoFiller(m, target + ot);
    }
  }

  ghost predicate NoPadding(m: Mem, a: nat) { forall n: nat :: n > 0 ==> !IsPadding(m, a, n) }

  lemma NoFiller(m: Mem, a: nat)
    requires Filler(m, a) == 0
    ensures NoPadding(m, a)
  {
    hide IsPadding, Filler;
    forall n: nat | n > 0 ensures !IsPadding(m, a, n) { FillerMeans(m, a, n); }
  }

  lemma SkipStepOrEnd(m: Mem, target: nat, ot: nat)
    ensures SkipFillers(m, target, ot)
         == if ot >= SIZE_OF_JMP || Filler(m, target + ot) == 0 then ot
            else SkipFillers(m, target, ot + Filler(m, target + ot))
  {
    hide Filler;
  }

  lemma {:induction false} SkipLocal(m: Mem, n: Mem, target: nat, ot: nat)
    requires SameWindow(m, n, target)
    ensures SkipFillers(m, target, ot) == SkipFillers(n, target, ot)
    decreases SIZE_OF_JMP - ot
  {
    hide Filler;
    SkipStepOrEnd(m, target, ot);
    SkipStepOrEnd(n, target, ot);
    if ot < SIZE_OF_JMP {
      FillerLocal(m, n, target + ot);
      if Filler(m, target + ot) != 0 { SkipLocal(m, n, target, ot + Filler(m, target + ot)); }
    }
  }

  lemma FillerLocal(m: Mem, n: Mem, a: nat)
    requires Agree(m, n, a, a + 12)
    ensures Filler(m, a) == Filler(n, a)
  {
    hide FillerTail;
    AtLocal(m, n, a);
    TailLocal(m, n, a);
    TailLocal(m, n, a + 1);
    TailLocal(m, n, a + 2);
    TailLocal(m, n, a + 3);
  }

  lemma AtLocal(m: Mem, n: Mem, a: nat)
    requires Agree(m, n, a, a + 3)
    ensures At(m, a) == At(n, a) && At(m, a + 1) == At(n, a + 1) && At(m, a + 2) == At(n, a + 2)
  {
  }

  lemma TailLocal(m: Mem, n: Mem, a: nat)
    requires Agree(m, n, a, a + 8)
    ensures FillerTail(m, a) == FillerTail(n, a)
  {
    AtLocal(m, n, a);
    ZerosLocal(m, n, a + 3, 1);
    ZerosLocal(m, n, a + 3, 2);
    ZerosLocal(m, n, a + 3, 4);
    ZerosLocal(m, n, a + 3, 5);
  }

  lemma {:induction false} ZerosLocal(m: Mem, n: Mem, a: nat, k: nat)
    requires Agree(m, n, a, a + k)
    ensures Zeros(m, a, k) == Zeros(n, a, k)
    decreases k
  {
    if k > 0 { ZerosLocal(m, n, a + 1, k - 1); }
  }

  /** Memory `n` is `m` with the first instructions of a run copied into the trampoline at `t`. */
  ghost predicate Copying(m: Mem, n: Mem, t: int, marks: seq<Mark>, out: seq<byte>)
  {
    && |n| == |m| && 0 <= t && t + TRAMPOLINE_SIZE <= |n| && |out| <= 25 && |marks| <= SIZE_OF_JMP
    && (forall a :: t <= a < t + |out| ==> n[a] == out[a - t])
    && (forall a :: t + OFF_ALIGN <= a < t + OFF_REMAIN ==> n[a] == AlignEntry(marks, a - t - OFF_ALIGN))
    && (forall a :: 0 <= a < |m| && !InScratch(t, a) ==> n[a] == m[a])
  }

  function AlignEntry(marks: seq<Mark>, k: int): byte
  {
    if 0 <= k < |marks| then AlignByte(marks[k]) else 0
  }

  /** The code and alignment fields of the trampoline at `t`. */
  predicate InScratch(t: int, a: int)
  {
    t <= a < t + CODE_SIZE || t + OFF_ALIGN <= a < t + OFF_REMAIN
  }

  lemma CopyingStep(m: Mem, n: Mem, t: int, marks: seq<Mark>, out: seq<byte>, more: seq<byte>, mark: Mark)
    requires Copying(m, n, t, marks, out) && |out| + |more| <= 25 && |marks| < SIZE_OF_JMP
    ensures Copying(m, Store(Store(n, t + |out|, more), t + OFF_ALIGN + |marks|, [AlignByte(mark)]), t,
                    marks + [mark], out + more)
  {
    hide AlignByte;
  }

  lemma CopyingStart(m: Mem, t: int)
    requires 0 <= t && t + TRAMPOLINE_SIZE <= |m|
    ensures Copying(m, Store(m, t + OFF_ALIGN, Fill(ALIGN_SIZE, 0)), t, [], [])
  {
  }

  lemma CopyingDone(m: Mem, n: Mem, t: nat, run: Run)
    requires Copying(m, n, t, run.marks, run.out)
    ensures Holds(n, t, run.out)
    ensures n[t + OFF_ALIGN..t + OFF_ALIGN + ALIGN_SIZE] == Align(run.marks)
  {
    AlignLength(run.marks);
    hide AlignBytes, AlignByte;
    assert |Align(run.marks)| == ALIGN_SIZE;
  }

  lemma CopyingWindow(m: Mem, n: Mem, t: int, marks: seq<Mark>, out: seq<byte>, target: nat)
    requires Copying(m, n, t, marks, out) && target + WINDOW <= |m|
    requires target + WINDOW <= t || t + TRAMPOLINE_SIZE <= target
    ensures SameWindow(m, n, target)
  {
    hide AlignByte;
  }

  /** The next instruction can be copied where the loop stands. */
  lemma StepReady(t: Tables, m: Mem, n: Mem, code: nat, target: nat, ot: nat, marks: seq<Mark>, out: seq<byte>,
                  rest: Run)
    returns (c: Copied, after: Run)
    requires TablesOk(t) && Copying(m, n, code, marks, out) && ot < SIZE_OF_JMP
    requires target + WINDOW <= |m| && (target + WINDOW <= code || code + TRAMPOLINE_SIZE <= target)
    requires Movable(t, m, code, target, ot, |out|) && CopyRun(t, m, code, target, ot, |out|) == Some(rest)
    requires |out| + |rest.out| <= 25
    ensures CopyAt(t, n, code + |out|, target + ot) == Some(c) && target + ot < |n| && RowUsable(t.One(n[target + ot]))
    ensures Apart(code + |out|, |c.out|, target + ot, c.len)
    ensures |c.out| == c.len + c.extra && 1 <= c.len && |out| + |c.out| <= 25
    ensures rest.marks == [Mark(ot + c.len, |out| + |c.out|)] + after.marks && rest.out == c.out + after.out
    ensures EndsFunction(n, target + ot) == EndsFunction(m, target + ot)
    ensures if EndsFunction(m, target + ot) then after == Run([], [])
            else
              && Movable(t, m, code, target, ot + c.len, |out| + |c.out|)
              && CopyRun(t, m, code, target, ot + c.len, |out| + |c.out|) == Some(after)
  {
    hide CopyAt, FlowAt, FlowFrom, Relocatable, EndsFunction, Misread, TablesOk, Copying;
    c, after := RunStep(t, m, code, target, ot, |out|, rest);
    CopyingWindow(m, n, code, marks, out, target);
    CopyAtLocal(t, m, n, code + |out|, target + ot, c);
    EndsLocal(m, n, target, ot);
    CopyAtRow(t, n, code + |out|, target + ot);
  }

  lemma CopyAtRow(t: Tables, m: Mem, dst: int, src: nat)
    requires TablesOk(t) && CopyAt(t, m, dst, src).Some?
    ensures src < |m| && RowUsable(t.One(m[src]))
  {
    hide CopyEntry;
    RowsUsable(t, m[src]);
  }

  /** Copies one instruction into the trampoline and records where it and its copy end. */
  method CopyOne(space: AddressSpace, tables: Tables, t: u32, pbTrampoline: nat, pbOp: nat, pbTarget: nat, nAlign: nat,
                 ghost m: Mem, ghost marks: seq<Mark>, ghost out: seq<byte>, ghost c: Copied)
    returns (pbSrc: nat, pbNext: nat)
    requires Copying(m, space.b, t, marks, out) && pbTrampoline == t + |out| && nAlign == |marks| < SIZE_OF_JMP
    requires TablesOk(tables) && CopyAt(tables, space.b, pbTrampoline, pbOp) == Some(c) && pbOp < |space.b|
             && pbTarget <= pbOp
    requires RowUsable(tables.One(space.b[pbOp])) && Apart(pbTrampoline, |c.out|, pbOp, c.len)
    requires |c.out| == c.len + c.extra && |out| + |c.out| <= 25
    modifies space
    ensures pbSrc == pbOp + c.len && pbNext == pbTrampoline + |c.out|
    ensures Copying(m, space.b, t, marks + [Mark(pbSrc - pbTarget, |out| + |c.out|)], out + c.out)
  {
    hide CopyAt, TablesOk, Copying, RowUsable, AlignByte, Store, Apart;
    CopyingStep(m, space.b, t, marks, out, c.out, Mark(pbOp + c.len - pbTarget, |out| + |c.out|));
    CopyingSize(m, space.b, t, marks, out);
    var disasm := new CDetourDis(space, tables);
    ReadyAt(disasm, pbTrampoline, pbOp, c);
    pbSrc := disasm.CopyInstruction(pbTrampoline, pbOp);
    pbNext := pbTrampoline + (pbSrc - pbOp) + disasm.lExtra;
    space.b := Store(space.b, t + OFF_ALIGN + nAlign, [AlignByte(Mark(pbSrc - pbTarget, pbNext - t))]);
  }

  lemma CopyingSize(m: Mem, n: Mem, t: int, marks: seq<Mark>, out: seq<byte>)
    requires Copying(m, n, t, marks, out)
    ensures |n| == |m| && t + TRAMPOLINE_SIZE <= |n| && |out| <= 25
  {
  }

  /** Source bytes a list of marks accounts for. */
  function Consumed(marks: seq<Mark>): nat { if marks == [] then 0 else marks[|marks| - 1].target }

  /** The copy loop after the instructions of `marks`; `rest` is the run still to be copied. */
  ghost predicate Partway(tables: Tables, m: Mem, n: Mem, t: u32, target: u32, run: Run, marks: seq<Mark>,
                          out: seq<byte>, rest: Run)
  {
    && Copying(m, n, t, marks, out) && run.marks == marks + rest.marks && run.out == out + rest.out
    && Movable(tables, m, t, target, Consumed(marks), |out|)
    && CopyRun(tables, m, t, target, Consumed(marks), |out|) == Some(rest)
  }

  lemma PartwayReady(tables: Tables, m: Mem, n: Mem, t: u32, target: u32, run: Run, marks: seq<Mark>,
                     out: seq<byte>, rest: Run)
    returns (c: Copied, after: Run)
    requires TablesOk(tables) && Partway(tables, m, n, t, target, run, marks, out, rest)
             && Consumed(marks) < SIZE_OF_JMP
    requires target + WINDOW <= |m| && (target + WINDOW <= t || t + TRAMPOLINE_SIZE <= target) && |run.out| <= 25
             && |run.marks| <= SIZE_OF_JMP
    ensures var ot := Consumed(marks);
            var mark := Mark(ot + c.len, |out| + |c.out|);
            && CopyAt(tables, n, t + |out|, target + ot) == Some(c) && target + ot < |n|
            && RowUsable(tables.One(n[target + ot]))
            && Apart(t + |out|, |c.out|, target + ot, c.len)
            && |c.out| == c.len + c.extra && 1 <= c.len && |out| + |c.out| <= 25 && |marks| < SIZE_OF_JMP
            && Copying(m, n, t, marks, out)
            && |rest.marks| >= 1 && rest.marks == [mark] + after.marks && rest.out == c.out + after.out
            && if EndsFunction(m, target + ot) then after == Run([], [])
               else Movable(tables, m, t, target, ot + c.len, |out| + |c.out|)
                    && CopyRun(tables, m, t, target, ot + c.len, |out| + |c.out|) == Some(after)
  {
    hide CopyAt, CopyRun, Movable, EndsFunction, TablesOk, Copying, FlowAt, RowUsable, Apart;
    c, after := StepReady(tables, m, n, t, target, Consumed(marks), marks, out, rest);
    assert |rest.marks| >= 1;
  }

  lemma PartwayNext(tables: Tables, m: Mem, n: Mem, p: Mem, t: u32, target: u32, run: Run, marks: seq<Mark>,
                    out: seq<byte>, rest: Run, c: Copied, after: Run, mark: Mark)
    requires Partway(tables, m, n, t, target, run, marks, out, rest) && Consumed(marks) < SIZE_OF_JMP
    requires target + WINDOW <= |m| && (target + WINDOW <= t || t + TRAMPOLINE_SIZE <= target)
    requires mark == Mark(Consumed(marks) + c.len, |out| + |c.out|) && Copying(m, p, t, marks + [mark], out + c.out)
    requires rest.marks == [mark] + after.marks && rest.out == c.out + after.out
    requires if EndsFunction(m, target + Consumed(marks)) then after == Run([], [])
             else Movable(tables, m, t, target, mark.target, mark.code)
                  && CopyRun(tables, m, t, target, mark.target, mark.code) == Some(after)
    ensures EndsFunction(p, target + Consumed(marks)) == EndsFunction(m, target + Consumed(marks))
    ensures if EndsFunction(m, target + Consumed(marks)) then marks + [mark] == run.marks && out + c.out == run.out
            else Partway(tables, m, p, t, target, run, marks + [mark], out + c.out, after)
  {
    hide CopyAt, CopyRun, Movable, EndsFunction, Copying;
    EndsKept(m, p, t, marks + [mark], out + c.out, target, Consumed(marks));
    assert run.marks == (marks + [mark]) + after.marks && run.out == (out + c.out) + after.out;
  }

  lemma PartwayEnd(tables: Tables, m: Mem, n: Mem, t: u32, target: u32, run: Run, marks: seq<Mark>, out: seq<byte>,
                   rest: Run)
    requires Partway(tables, m, n, t, target, run, marks, out, rest) && Consumed(marks) >= SIZE_OF_JMP
    ensures marks == run.marks && out == run.out && Copying(m, n, t, marks, out)
  {
    hide CopyRun, Movable, Copying;
    RunDone(tables, m, t, target, Consumed(marks), |out|);
  }

  lemma PartwayStart(tables: Tables, m: Mem, t: u32, target: u32, run: Run)
    requires t + TRAMPOLINE_SIZE <= |m| && Movable(tables, m, t, target, 0, 0)
             && CopyRun(tables, m, t, target, 0, 0) == Some(run)
    ensures Partway(tables, m, Store(m, t + OFF_ALIGN, Fill(ALIGN_SIZE, 0)), t, target, run, [], [], run)
  {
    hide CopyRun, Movable, Copying, Store;
    CopyingStart(m, t);
  }

  /** Copies whole instructions until a jump fits over them or the function ends. */
  method CopyTarget(space: AddressSpace, tables: Tables, t: u32, target: u32, ghost run: Run)
    returns (cbTarget: nat, cbCode: nat)
    requires TablesOk(tables) && target + WINDOW <= |space.b| && t + TRAMPOLINE_SIZE <= |space.b|
    requires target + WINDOW <= t || t + TRAMPOLINE_SIZE <= target
    requires Movable(tables, space.b, t, target, 0, 0) && CopyRun(tables, space.b, t, target, 0, 0) == Some(run)
    modifies space
    ensures Copying(old(space.b), space.b, t, run.marks, run.out) && cbCode == |run.out|
    ensures run.marks != [] && cbTarget == run.marks[|run.marks| - 1].target
  {
    hide CopyAt, CopyRun, Movable, EndsFunction, TablesOk, Copying, FlowAt, FlowFrom, RowUsable, Apart, Partway,
      Store, Fill;
    ghost var m := space.b;
    RunBound(tables, m, t, target, 0, 0, run);
    PartwayStart(tables, m, t, target, run);
    space.b := Store(space.b, t + OFF_ALIGN, Fill(ALIGN_SIZE, 0));
    var pbTrampoline: nat := t;
    var nAlign := 0;
    cbTarget := 0;
    ghost var marks: seq<Mark>, out: seq<byte> := [], [];
    ghost var rest, ended := run, false;
    while cbTarget < SIZE_OF_JMP
      invariant !ended && Partway(tables, m, space.b, t, target, run, marks, out, rest)
      invariant pbTrampoline == t + |out| && nAlign == |marks| && cbTarget == Consumed(marks)
      decreases SIZE_OF_JMP - cbTarget
    {
      ghost var c, after := PartwayReady(tables, m, space.b, t, target, run, marks, out, rest);
      var pbOp := target + cbTarget;
      var pbSrc: nat;
      ghost var n, mark := space.b, Mark(cbTarget + c.len, |out| + |c.out|);
      pbSrc, pbTrampoline := CopyOne(space, tables, t, pbTrampoline, pbOp, target, nAlign, m, marks, out, c);
      assert Mark(pbSrc - target, |out| + |c.out|) == mark;
      PartwayNext(tables, m, n, space.b, t, target, run, marks, out, rest, c, after, mark);
      cbTarget := pbSrc - target;
      nAlign := nAlign + 1;
      marks, out, rest := marks + [mark], out + c.out, after;
      if nAlign >= ALIGN_SIZE {
        break;
      }
      if EndsFunction(space.b, pbOp) {
        ended := true;
        break;
      }
    }
    if !ended { PartwayEnd(tables, m, space.b, t, target, run, marks, out, rest); }
    cbCode := pbTrampoline - t;
  }

  /** Counts, without copying it, padding that the jump may overwrite. */
  method SkipPadding(space: AddressSpace, target: u32, cbCopied: nat) returns (cbTarget: nat)
    ensures cbTarget == SkipFillers(space.b, target, cbCopied)
  {
    hide SkipFillers, Filler;
    cbTarget := cbCopied;
    while cbTarget < SIZE_OF_JMP
      invariant SkipFillers(space.b, target, cbCopied) == SkipFillers(space.b, target, cbTarget)
      decreases SIZE_OF_JMP - cbTarget
    {
      SkipStep(space.b, target, cbTarget);
      var cFiller := Filler(space.b, target + cbTarget);
      if cFiller == 0 {
        break;
      }
      cbTarget := cbTarget + cFiller;
    }
    SkipEnd(space.b, target, cbTarget);
  }

  lemma ReadyAt(disasm: CDetourDis, dst: nat, src: nat, c: Copied)
    requires TablesOk(disasm.tables) && disasm.GetFlags() == NO_FLAGS && disasm.lExtra == 0
    requires CopyAt(disasm.tables, disasm.space.b, dst, src) == Some(c) && src < |disasm.space.b|
    requires RowUsable(disasm.tables.One(disasm.space.b[src]))
    requires Apart(dst, |c.out|, src, c.len) && dst + |c.out| <= |disasm.space.b|
    ensures disasm.Ready(dst, src, disasm.tables.One(disasm.space.b[src]))
  {
    hide CopyEntry, TablesOk, RowUsable;
  }

  lemma EndsKept(m: Mem, n: Mem, t: int, marks: seq<Mark>, out: seq<byte>, target: nat, ot: nat)
    requires Copying(m, n, t, marks, out) && target + WINDOW <= |m| && ot < SIZE_OF_JMP
    requires target + WINDOW <= t || t + TRAMPOLINE_SIZE <= target
    ensures EndsFunction(n, target + ot) == EndsFunction(m, target + ot)
  {
    hide EndsFunction, Copying;
    CopyingWindow(m, n, t, marks, out, target);
    EndsLocal(m, n, target, ot);
  }

  lemma SkipStep(m: Mem, target: nat, ot: nat)
    requires ot < SIZE_OF_JMP
    ensures SkipFillers(m, target, ot) == if Filler(m, target + ot) == 0 then ot
                                          else SkipFillers(m, target, ot + Filler(m, target + ot))
  {
    hide Filler;
  }

  lemma SkipEnd(m: Mem, target: nat, ot: nat)
    ensures ot >= SIZE_OF_JMP || Filler(m, target + ot) == 0 ==> SkipFillers(m, target, ot) == ot
  {
    hide Filler;
  }

  // ------------------------------------------------------------------------------ the rest of it

  /** The trampoline of hook `h` is in place: what detach reads back, and a jump after the moved code
      to the first target byte that was not overwritten. */
  ghost predicate TrampolineHolds(m: Mem, h: Hook)
  {
    && h.code + TRAMPOLINE_SIZE <= |m| && h.cb <= RESTORE_SIZE && |h.saved| == h.cb && h.target + h.cb < SPACE
    && var cbCode := At(m, h.code + OFF_CB_CODE);
    && cbCode <= 25
    && At(m, h.code + OFF_CB_RESTORE) == h.cb
    && (forall k :: 0 <= k < h.cb ==> At(m, h.code + OFF_RESTORE + k) == h.saved[k])
    && Read32(m, h.code + OFF_REMAIN) == h.target + h.cb
    && Read32(m, h.code + OFF_DETOUR) == h.detour
    && Holds(m, h.code + cbCode, JmpBytes(h.code + cbCode, h.target + h.cb))
  }

  /** The `k` bytes of memory at `a`. */
  function Slice(m: Mem, a: int, k: nat): (s: seq<byte>)
    ensures |s| == k && forall i :: 0 <= i < k ==> s[i] == At(m, a + i)
  {
    seq<byte>(k, i requires 0 <= i < k => At(m, a + i))
  }

  /** The trampoline after the copy loop, given its remaining fields. */
  function Finished(n: Mem, t: int, target: int, detour: int, cbTarget: nat, cbCode: nat): (r: Mem)
    ensures |r| == |n|
  {
    var coded := Store(n, t + OFF_CB_CODE, [cbCode % 0x100]);
    var counted := Store(coded, t + OFF_CB_RESTORE, [cbTarget % 0x100]);
    var restorable := Store(counted, t + OFF_RESTORE, Slice(counted, target, cbTarget));
    var remaining := Store32(restorable, t + OFF_REMAIN, target + cbTarget);
    var detouring := Store32(remaining, t + OFF_DETOUR, detour);
    var jumping := Store(detouring, t + cbCode, JmpBytes(t + cbCode, target + cbTarget));
    Store(jumping, t + cbCode + SIZE_OF_JMP, Fill(if cbCode <= 25 then 25 - cbCode else 0, 0xcc))
  }

  function FinishedByte(n: Mem, t: int, target: int, detour: int, cbTarget: nat, cbCode: nat, a: int): int
  {
    if t + cbCode <= a < t + cbCode + 5 then At(JmpBytes(t + cbCode, target + cbTarget), a - t - cbCode)
    else if t + cbCode + 5 <= a < t + CODE_SIZE then 0xcc
    else if a == t + OFF_CB_CODE then cbCode
    else if t + OFF_RESTORE <= a < t + OFF_RESTORE + cbTarget then At(n, target + (a - t - OFF_RESTORE))
    else if a == t + OFF_CB_RESTORE then cbTarget
    else if t + OFF_REMAIN <= a < t + OFF_DETOUR then At(Bytes32(target + cbTarget), a - t - OFF_REMAIN)
    else if t + OFF_DETOUR <= a < t + TRAMPOLINE_SIZE then At(Bytes32(detour), a - t - OFF_DETOUR)
    else At(n, a)
  }

  lemma FinishedBytes(n: Mem, t: u32, target: u32, detour: u32, cbTarget: nat, cbCode: nat, a: int)
    requires t + TRAMPOLINE_SIZE <= |n| && cbTarget <= RESTORE_SIZE && cbCode <= 25 && 0 <= a < |n|
    requires target + cbTarget <= t || t + TRAMPOLINE_SIZE <= target
    ensures Finished(n, t, target, detour, cbTarget, cbCode)[a] ==
            FinishedByte(n, t, target, detour, cbTarget, cbCode, a)
  {
    hide JmpBytes, Bytes32;
  }

  lemma FinishedAll(n: Mem, t: u32, target: u32, detour: u32, cbTarget: nat, cbCode: nat)
    requires t + TRAMPOLINE_SIZE <= |n| && cbTarget <= RESTORE_SIZE && cbCode <= 25
    requires target + cbTarget <= t || t + TRAMPOLINE_SIZE <= target
    ensures var m := Finished(n, t, target, detour, cbTarget, cbCode);
            forall a :: 0 <= a < |m| ==> m[a] == FinishedByte(n, t, target, detour, cbTarget, cbCode, a)
  {
    hide Finished, FinishedByte;
    forall a | 0 <= a < |n|
      ensures Finished(n, t, target, detour, cbTarget, cbCode)[a] ==
              FinishedByte(n, t, target, detour, cbTarget, cbCode, a)
    {
      FinishedBytes(n, t, target, detour, cbTarget, cbCode, a);
    }
  }

  lemma FinishedHolds(n: Mem, h: Hook, cbCode: nat)
    requires h.code + TRAMPOLINE_SIZE <= |n| && h.cb <= RESTORE_SIZE && cbCode <= 25 && |h.saved| == h.cb
    requires h.target + h.cb < SPACE && h.target + h.cb <= |n|
    requires h.target + h.cb <= h.code || h.code + TRAMPOLINE_SIZE <= h.target
    requires forall k :: 0 <= k < h.cb ==> At(n, h.target + k) == h.saved[k]
    ensures TrampolineHolds(Finished(n, h.code, h.target, h.detour, h.cb, cbCode), h)
  {
    hide Finished, JmpBytes, Bytes32, Read32;
    var t := h.code;
    var m := Finished(n, t, h.target, h.detour, h.cb, cbCode);
    FinishedAll(n, t, h.target, h.detour, h.cb, cbCode);
    assert m[t + OFF_REMAIN..t + OFF_REMAIN + 4] == Bytes32(h.target + h.cb);
    assert m[t + OFF_DETOUR..t + OFF_DETOUR + 4] == Bytes32(h.detour);
    assert m[t + cbCode..t + cbCode + 5] == JmpBytes(t + cbCode, h.target + h.cb);
    ReadBytes(m, t + OFF_REMAIN, h.target + h.cb);
    ReadBytes(m, t + OFF_DETOUR, h.detour);
  }

  /** detour_gen_brk */
  method GenBrk(space: AddressSpace, pbCode: nat, pbLimit: nat)
    requires pbCode <= pbLimit <= |space.b|
    modifies space
    ensures space.b == Store(old(space.b), pbCode, Fill(pbLimit - pbCode, 0xcc))
  {
    ghost var was := space.b;
    var p := pbCode;
    while p < pbLimit
      invariant pbCode <= p <= pbLimit && space.b == Store(was, pbCode, Fill(p - pbCode, 0xcc))
    {
      space.b := Store(space.b, p, [0xcc]);
      p := p + 1;
    }
  }

  /** Everything a copied run still lacks: the saved bytes, the way back and the breakpoints. */
  method FinishTrampoline(space: AddressSpace, t: u32, target: u32, detour: u32, cbTarget: nat, cbCode: nat)
    requires t + TRAMPOLINE_SIZE <= |space.b| && cbTarget <= RESTORE_SIZE && cbCode <= 25
    modifies space
    ensures space.b == Finished(old(space.b), t, target, detour, cbTarget, cbCode)
  {
    hide Store, JmpBytes, Bytes32;
    ghost var was := space.b;
    space.b := Store(space.b, t + OFF_CB_CODE, [cbCode % 0x100]);
    space.b := Store(space.b, t + OFF_CB_RESTORE, [cbTarget % 0x100]);
    space.b := Store(space.b, t + OFF_RESTORE, Slice(space.b, target, cbTarget));
    space.b := Store32(space.b, t + OFF_REMAIN, target + cbTarget);
    space.b := Store32(space.b, t + OFF_DETOUR, detour);
    space.b := Store(space.b, t + cbCode, JmpBytes(t + cbCode, target + cbTarget));
    GenBrk(space, t + cbCode + SIZE_OF_JMP, t + CODE_SIZE);
  }

  /** Target bytes attach overwrites: the copied run and the padding after it. */
  function Patchable(m: Mem, target: int, run: Run): nat
  {
    SkipFillers(m, target, if run.marks == [] then 0 else run.marks[|run.marks| - 1].target)
  }

  /** The hook a finished trampoline at `t` stands for. */
  function HookMade(m: Mem, pointer: nat, target: u32, cb: nat, t: u32, detour: u32, run: Run): Hook
  {
    Hook(pointer, target, cb, t, detour, Slice(m, target, cb), m, run)
  }

  /** Wherever the bytes of the hook's moved run lie in its trampoline, they mean what its code meant. */
  ghost predicate MeansSame(h: Hook)
  {
    forall n: Mem :: Holds(n, h.code, h.run.out) ==> FaithfulRun(h.source, n, h.code, h.target, Mark(0, 0), h.run.marks)
  }

  /** The length of the moved run in the target. */
  function RunLength(h: Hook): nat
  {
    if h.run.marks == [] then 0 else h.run.marks[|h.run.marks| - 1].target
  }

  /** What the hook moved lies in the bytes it saved; only padding may follow, after less than a jump. */
  ghost predicate Captured(h: Hook)
  {
    && CompleteMarks(h.run.marks) && h.run.marks[|h.run.marks| - 1].code == |h.run.out| <= 25
    && h.saved == Slice(h.source, h.target, h.cb)
    && RunLength(h) <= h.cb && (RunLength(h) < h.cb ==> RunLength(h) < SIZE_OF_JMP)
    && MeansSame(h)
  }

  /** The trampoline of hook `h` still carries the moved run and its alignment entries. */
  ghost predicate Carried(m: Mem, h: Hook)
  {
    && Captured(h)
    && Holds(m, h.code, h.run.out) && Slice(m, h.code + OFF_ALIGN, ALIGN_SIZE) == Align(h.run.marks)
    && At(m, h.code + OFF_CB_CODE) == |h.run.out|
  }

  lemma CarriedMeans(m: Mem, h: Hook)
    requires Carried(m, h)
    ensures FaithfulRun(h.source, m, h.code, h.target, Mark(0, 0), h.run.marks)
  {
    hide FaithfulRun, CompleteMarks, Align;
    assert MeansSame(h);
  }

  /** The trampoline does in its place what the overwritten code did in its own. */
  ghost predicate Carries(m: Mem, n: Mem, t: u32, target: u32, run: Run)
  {
    && FaithfulRun(m, n, t, target, Mark(0, 0), run.marks)
    && t + TRAMPOLINE_SIZE <= |n| && n[t + OFF_ALIGN..t + OFF_REMAIN] == Align(run.marks)
    && CompleteMarks(run.marks)
  }

  ghost predicate OnlyTrampoline(m: Mem, n: Mem, t: int)
  {
    && |m| == |n|
    && forall a :: 0 <= a < |m| && !(t <= a < t + TRAMPOLINE_SIZE) ==> n[a] == m[a]
  }

  lemma PatchableBounds(t: Tables, m: Mem, code: u32, target: u32, run: Run)
    requires TablesOk(t) && Movable(t, m, code, target, 0, 0) && CopyRun(t, m, code, target, 0, 0) == Some(run)
    ensures run.marks != [] && run.marks[|run.marks| - 1].target <= 17 && Patchable(m, target, run) <= 17
    ensures |run.out| <= 25 && CompleteMarks(run.marks)
  {
    hide CopyRun, Movable, TablesOk, SkipFillers;
    RunBound(t, m, code, target, 0, 0, run);
    RunMarks(t, m, code, target, 0, 0, run);
  }

  /** The middle of DetourAttachEx: fills the trampoline at `t` for `target`. Fewer than five bytes
      found means the function is too small to patch. */
  method FillTrampoline(space: AddressSpace, tables: Tables, t: u32, target: u32, detour: u32, ghost run: Run)
    returns (cbTarget: nat)
    requires TablesOk(tables) && target + WINDOW <= |space.b| && t + TRAMPOLINE_SIZE <= |space.b| == SPACE
    requires target + WINDOW <= t || t + TRAMPOLINE_SIZE <= target
    requires Movable(tables, space.b, t, target, 0, 0) && CopyRun(tables, space.b, t, target, 0, 0) == Some(run)
    modifies space
    ensures cbTarget == Patchable(old(space.b), target, run) <= 17
    ensures OnlyTrampoline(old(space.b), space.b, t)
    ensures forall pointer: nat :: cbTarget >= SIZE_OF_JMP ==>
                                     TrampolineHolds(space.b,
                                                     HookMade(old(space.b), pointer, target, cbTarget, t, detour, run))
    ensures cbTarget >= SIZE_OF_JMP ==>
              Carries(old(space.b), space.b, t, target, run) && Holds(space.b, t, run.out) && At(space.b, t) != 0xeb
    ensures cbTarget >= SIZE_OF_JMP ==> At(space.b, t + OFF_CB_CODE) == |run.out|
  {
    hide CopyRun, Movable, TablesOk, SkipFillers, Copying, Finished, TrampolineHolds, FaithfulRun, Align, CompleteMarks;
    ghost var m := space.b;
    PatchableBounds(tables, m, t, target, run);
    var cbCopied, cbCode := CopyTarget(space, tables, t, target, run);
    ghost var n := space.b;
    CopyingWindow(m, n, t, run.marks, run.out, target);
    SkipLocal(m, n, target, cbCopied);
    cbTarget := SkipPadding(space, target, cbCopied);
    CopyingOnly(m, n, t, run.marks, run.out);
    if cbTarget >= SIZE_OF_JMP {
      FinishTrampoline(space, t, target, detour, cbTarget, cbCode);
      forall pointer: nat ensures TrampolineHolds(space.b, HookMade(m, pointer, target, cbTarget, t, detour, run)) {
        FinishedHolds(n, HookMade(m, pointer, target, cbTarget, t, detour, run), cbCode);
      }
      FinishedCarries(tables, m, n, t, target, detour, cbTarget, run);
      FinishedOnly(n, t, target, detour, cbTarget, cbCode);
    }
  }

  /** A relocated instruction never starts with a short jump. */
  lemma FirstByte(t: Tables, m: Mem, dst: int, src: nat, c: Copied)
    requires TablesOk(t) && CopyAt(t, m, dst, src) == Some(c) && c.out != []
    ensures c.out[0] != 0xeb
  {
    hide TablesOk, PlainRow, BytesSize, NewOffset, Displacement, Encode, Fits, SubRow;
    var e := t.One(m[src]);
    EntryForm(t, m, dst, src, e, NO_FLAGS);
    RowShape(e);
    ShortRow(t, m[src]);
    if !e.Bytes? { SubRowUsable(e, m[src + 1], NO_FLAGS); }
  }

  lemma ShortRow(t: Tables, op: byte)
    requires TablesOk(t)
    ensures t.One(op).Jump? <==> IsShort(op)
  {
    assert OneRowOk(op, t.One(op));
  }

  lemma RunFirstByte(t: Tables, m: Mem, code: int, target: nat, run: Run)
    requires TablesOk(t) && Movable(t, m, code, target, 0, 0) && CopyRun(t, m, code, target, 0, 0) == Some(run)
    ensures run.out != [] && run.out[0] != 0xeb
  {
    hide CopyAt, CopyRun, Movable, TablesOk, FlowAt, Relocatable, EndsFunction;
    var c, rest := RunStep(t, m, code, target, 0, 0, run);
    FirstByte(t, m, code, target, c);
  }

  /** What a trampoline carries does not depend on memory away from the target. */
  lemma CarriesFrom(tables: Tables, m: Mem, n: Mem, p: Mem, t: u32, target: u32, run: Run)
    requires TablesOk(tables) && Movable(tables, m, t, target, 0, 0) && CopyRun(tables, m, t, target, 0, 0) == Some(run)
    requires Carries(n, p, t, target, run) && Holds(p, t, run.out)
    ensures Carries(m, p, t, target, run)
  {
    hide CopyRun, Movable, TablesOk, FaithfulRun, CompleteMarks, Align, Holds;
    RunFaithful(tables, m, p, t, target, 0, 0, run);
  }

  /** A hook captured from `m` whose trampoline was filled: nothing that mattered has changed since. */
  lemma HookCaptured(tables: Tables, m: Mem, p: Mem, h: Hook)
    requires TablesOk(tables) && Movable(tables, m, h.code, h.target, 0, 0)
    requires CopyRun(tables, m, h.code, h.target, 0, 0) == Some(h.run)
    requires h.source == m && h.saved == Slice(m, h.target, h.cb) && h.cb == Patchable(m, h.target, h.run)
    requires Carries(m, p, h.code, h.target, h.run) && Holds(p, h.code, h.run.out)
             && At(p, h.code + OFF_CB_CODE) == |h.run.out|
    ensures Carried(p, h)
  {
    hide CopyRun, Movable, TablesOk, FaithfulRun, CompleteMarks, Align, Holds, SkipFillers, Slice;
    PatchableBounds(tables, m, h.code, h.target, h.run);
    RunMarks(tables, m, h.code, h.target, 0, 0, h.run);
    forall n: Mem | Holds(n, h.code, h.run.out)
      ensures FaithfulRun(m, n, h.code, h.target, Mark(0, 0), h.run.marks)
    {
      RunFaithful(tables, m, n, h.code, h.target, 0, 0, h.run);
    }
    AlignSlice(p, h.code, h.run.marks);
  }

  lemma AlignSlice(p: Mem, t: u32, marks: seq<Mark>)
    requires t + TRAMPOLINE_SIZE <= |p| && p[t + OFF_ALIGN..t + OFF_REMAIN] == Align(marks)
    ensures Slice(p, t + OFF_ALIGN, ALIGN_SIZE) == Align(marks)
  {
    hide Align;
    assert Slice(p, t + OFF_ALIGN, ALIGN_SIZE) == p[t + OFF_ALIGN..t + OFF_REMAIN];
  }

  lemma HoldsAlike(m: Mem, g: Hook, h: Hook)
    requires TrampolineHolds(m, g) && g == h.(source := g.source, run := g.run)
    ensures TrampolineHolds(m, h)
  {
    hide Read32, JmpBytes, Holds;
  }

  /** Only the trampoline's own bytes matter to what it carries. */
  lemma CarriedKept(m: Mem, n: Mem, h: Hook)
    requires Carried(m, h) && Agree(m, n, h.code, h.code + TRAMPOLINE_SIZE) && h.code + TRAMPOLINE_SIZE <= |m| == |n|
    ensures Carried(n, h)
  {
    hide FaithfulRun, CompleteMarks, Align, Captured;
    assert |h.run.out| <= 25 by { CapturedSize(h); }
    assert n[h.code..h.code + |h.run.out|] == m[h.code..h.code + |h.run.out|];
    assert Slice(n, h.code + OFF_ALIGN, ALIGN_SIZE) == Slice(m, h.code + OFF_ALIGN, ALIGN_SIZE);
  }

  lemma CapturedSize(h: Hook)
    requires Captured(h)
    ensures |h.run.out| <= 25
  {
  }

  lemma CopyingOnly(m: Mem, n: Mem, t: int, marks: seq<Mark>, out: seq<byte>)
    requires Copying(m, n, t, marks, out)
    ensures OnlyTrampoline(m, n, t)
  {
    hide AlignByte;
  }

  lemma FinishedOnly(n: Mem, t: u32, target: u32, detour: u32, cbTarget: nat, cbCode: nat)
    requires t + TRAMPOLINE_SIZE <= |n| && cbTarget <= RESTORE_SIZE && cbCode <= 25
    requires target + cbTarget <= t || t + TRAMPOLINE_SIZE <= target
    ensures OnlyTrampoline(n, Finished(n, t, target, detour, cbTarget, cbCode), t)
  {
    hide Finished, JmpBytes, Bytes32;
    FinishedAll(n, t, target, detour, cbTarget, cbCode);
  }

  lemma FinishedCarries(tables: Tables, m: Mem, n: Mem, t: u32, target: u32, detour: u32, cbTarget: nat, run: Run)
    requires TablesOk(tables) && Movable(tables, m, t, target, 0, 0) && CopyRun(tables, m, t, target, 0, 0) == Some(run)
    requires Copying(m, n, t, run.marks, run.out) && cbTarget <= RESTORE_SIZE
    requires target + cbTarget <= t || t + TRAMPOLINE_SIZE <= target
    ensures Carries(m, Finished(n, t, target, detour, cbTarget, |run.out|), t, target, run)
    ensures Holds(Finished(n, t, target, detour, cbTarget, |run.out|), t, run.out)
    ensures At(Finished(n, t, target, detour, cbTarget, |run.out|), t) != 0xeb
    ensures At(Finished(n, t, target, detour, cbTarget, |run.out|), t + OFF_CB_CODE) == |run.out|
  {
    hide CopyRun, Movable, TablesOk, Finished, FaithfulRun, CompleteMarks, Align, AlignByte, JmpBytes, Bytes32;
    var p := Finished(n, t, target, detour, cbTarget, |run.out|);
    PatchableBounds(tables, m, t, target, run);
    FinishedAll(n, t, target, detour, cbTarget, |run.out|);
    CopyingDone(m, n, t, run);
    assert p[t..t + |run.out|] == n[t..t + |run.out|];
    assert p[t + OFF_ALIGN..t + OFF_REMAIN] == n[t + OFF_ALIGN..t + OFF_REMAIN];
    RunFaithful(tables, m, p, t, target, 0, 0, run);
    RunFirstByte(tables, m, t, target, run);
    assert p[t..t + |run.out|][0] == run.out[0];
  }
}

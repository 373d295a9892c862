/** The three passes of commit over the pending operations: patching, moving suspended threads and
    returning trampolines. */
module DetourCommit {
  import opened Memory
  import opened X86Trampoline
  import opened HookLayers
  import opened DetourCopy
  import opened TrampolineHeap
  import opened TrampolineRegions
  import opened DetourState
  import opened DetourFrames

  // ------------------------------------------------------------------------- which hooks remain

  lemma CodesAfter(hooks: seq<Hook>, op: Op)
    requires DistinctCodes(hooks) && (op.Attach? ==> op.h.code !in Codes(hooks))
             && (op.Detach? ==> MayDetach(hooks, op.h))
    ensures DistinctCodes(HooksAfter(hooks, op))
    ensures Codes(HooksAfter(hooks, op)) == if op.Attach? then Codes(hooks) + {op.h.code as int}
                                            else Codes(hooks) - {op.h.code as int}
  {
    var after := HooksAfter(hooks, op);
    match op
    case Attach(h) =>
      forall i | 0 <= i < |hooks| ensures hooks[i].code != h.code { HookCode(hooks, i); }
      assert forall x :: x in after <==> x in hooks || x == h;
    case Detach(h) =>
      var i :| 0 <= i < |hooks| && hooks[i] == h && Topmost(hooks, i) && after == RemoveAt(hooks, i);
      RemovedCodes(hooks, i);
  }

  lemma CodeIndex(hooks: seq<Hook>, c: int) returns (i: nat)
    requires c in Codes(hooks)
    ensures i < |hooks| && hooks[i].code == c
  {
    var h :| h in hooks && h.code == c;
    i :| 0 <= i < |hooks| && hooks[i] == h;
  }

  lemma RemovedCodes(hooks: seq<Hook>, i: nat)
    requires DistinctCodes(hooks) && i < |hooks|
    ensures DistinctCodes(RemoveAt(hooks, i))
    ensures Codes(RemoveAt(hooks, i)) == Codes(hooks) - {hooks[i].code as int}
  {
    hide Codes, RemoveAt;
    var after := RemoveAt(hooks, i);
    assert |after| == |hooks| - 1 by { RemovedSize(hooks, i); }
    forall j | 0 <= j < |after| ensures after[j] == hooks[if j < i then j else j + 1] { RemovedIndex(hooks, i, j); }
    forall c ensures c in Codes(after) <==> c in Codes(hooks) && c != hooks[i].code {
      if c in Codes(hooks) && c != hooks[i].code {
        var j := CodeIndex(hooks, c);
        HookCode(after, if j < i then j else j - 1);
      }
      if c in Codes(after) {
        var j := CodeIndex(after, c);
        HookCode(hooks, if j < i then j else j + 1);
      }
    }
  }

  lemma RemovedSize(hooks: seq<Hook>, i: nat)
    requires i < |hooks|
    ensures |RemoveAt(hooks, i)| == |hooks| - 1
  {
  }

  /** After the run the attached hooks' trampolines are those before it, plus those of the attaches,
      less those of the detaches. */
  lemma {:induction false} CodesRun(m: Mem, hooks: seq<Hook>, pending: seq<Op>, program: iset<int>)
    requires DistinctCodes(hooks) && OpsFit(hooks, pending) && LegalRun(m, hooks, pending, program)
    ensures DistinctCodes(HooksRun(hooks, pending))
    ensures Codes(HooksRun(hooks, pending)) == Codes(hooks) + AttachCodes(pending) - DetachCodes(pending)
    decreases |pending|
  {
    hide DistinctCodes, MayDetach, MayAttach, Apply, Codes, AttachCodes, DetachCodes, HooksAfter;
    if pending == [] {
      NoCodes();
    } else {
      var op, rest := pending[0], pending[1..];
      var after := HooksAfter(hooks, op);
      CodesAfter(hooks, op);
      assert pending == [op] + rest;
      CodesCons(op, rest);
      forall i | 0 <= i < |rest| ensures rest[i].Detach? <==> rest[i].h.code in Codes(after) {
        assert rest[i] == pending[i + 1];
      }
      CodesRun(Apply(m, op), after, rest, program);
      CodesApart(op, rest);
    }
  }

  lemma NoCodes()
    ensures AttachCodes([]) == {} && DetachCodes([]) == {}
  {
  }

  lemma CodesApart(op: Op, rest: seq<Op>)
    requires forall i :: 0 <= i < |rest| ==> rest[i].h.code != op.h.code
    ensures op.h.code !in AttachCodes(rest) && op.h.code !in DetachCodes(rest)
  {
  }

  /** Every hook left was there before or has just been attached. */
  lemma {:induction false} RunMembers(hooks: seq<Hook>, pending: seq<Op>, h: Hook)
    requires h in HooksRun(hooks, pending)
    ensures h in hooks || Attach(h) in pending
    decreases |pending|
  {
    if pending != [] {
      RunMembers(HooksAfter(hooks, pending[0]), pending[1..], h);
      MembersAfter(hooks, pending[0]);
    }
  }

  // ---------------------------------------------------------------------------------- patching

  ghost predicate InProgram(h: Hook, program: iset<int>)
  {
    HookOk(h, SPACE) && forall a :: Covers(h, a) ==> a in program
  }

  lemma PendingInProgram(base: Mem, m: Mem, hooks: seq<Hook>, pending: seq<Op>, program: iset<int>)
    requires |m| == SPACE && Consistent(base, m, hooks, program) && CapturedBefore(m, hooks, pending, program)
    ensures forall i :: 0 <= i < |pending| ==> InProgram(pending[i].h, program)
  {
    hide SavesBelow, Layer, SavedByte, Topmost;
    forall i | 0 <= i < |pending| ensures InProgram(pending[i].h, program) {
      assert Legal(m, hooks, pending[i], program);
      if pending[i].Detach? {
        var k :| 0 <= k < |hooks| && hooks[k] == pending[i].h && Topmost(hooks, k);
      }
    }
  }

  lemma AppliedOutside(m: Mem, op: Op, program: iset<int>)
    requires |m| == SPACE && InProgram(op.h, program)
    ensures forall a :: 0 <= a < |m| && a !in program ==> Apply(m, op)[a] == m[a]
  {
    hide Apply;
    forall a | 0 <= a < |m| && a !in program ensures Apply(m, op)[a] == m[a] {
      AppliedByte(m, op, a);
    }
  }

  lemma AppliedByte(m: Mem, op: Op, a: int)
    requires HookOk(op.h, |m|) && 0 <= a < |m| && !Covers(op.h, a)
    ensures Apply(m, op)[a] == m[a]
  {
    hide Patched, Restored;
    PatchedBytes(m, op.h, a);
  }

  ghost predicate OutsideSame(m: Mem, n: Mem, program: iset<int>)
  {
    |m| == |n| && forall a :: 0 <= a < |m| && a !in program ==> n[a] == m[a]
  }

  /** Writing the program touches neither the heap nor a trampoline. */
  lemma ProgramWrites(m: Mem, n: Mem, pRegions: int, pRegion: int, v: View, program: iset<int>)
    requires HeapOk(m, pRegions, pRegion, v) && OutsideSame(m, n, program) && Outside(v, program)
    ensures HeapOk(n, pRegions, pRegion, v) && SameTrampolines(m, n, v.live)
  {
    LiveSlots(m, pRegions, pRegion, v);
    hide HeapOk, IsSlot;
    assert SameRegions(m, n, v);
    HeapElsewhere(m, n, pRegions, pRegion, v);
    forall t | t in v.live ensures Agree(m, n, t, t + TRAMPOLINE_SIZE) {
      SlotFacts(RegionOf(t), t);
      forall a | t <= a < t + TRAMPOLINE_SIZE && 0 <= a < |m| ensures m[a] == n[a] {
        RegionSpan(RegionOf(t), a);
      }
    }
  }

  lemma RunStepForm(m: Mem, pending: seq<Op>, k: nat)
    requires k < |pending|
    ensures HookLayers.Run(m, pending[k..]) == HookLayers.Run(Apply(m, pending[k]), pending[k + 1..])
  {
    assert pending[k..][1..] == pending[k + 1..];
  }

  lemma RunEnd(m: Mem, pending: seq<Op>)
    ensures HookLayers.Run(m, pending[|pending|..]) == m
  {
  }

  // --------------------------------------------------------------------------- moving threads

  /** The rAlign field of the trampoline at `t`. */
  function AlignField(m: Mem, t: int): seq<byte> { Slice(m, t + OFF_ALIGN, ALIGN_SIZE) }

  /** A thread stopped at `eip` is where operation `o` removes code. */
  predicate Strands(m: Mem, o: Operation, eip: u32)
  {
    if o.fIsRemove then o.pTrampoline <= eip < o.pTrampoline + TRAMPOLINE_SIZE
    else o.pbTarget <= eip < o.pbTarget + At(m, o.pTrampoline + OFF_CB_RESTORE)
  }

  function FixOne(m: Mem, o: Operation, eip: u32): u32
  {
    if !Strands(m, o, eip) then eip
    else if o.fIsRemove then Wrap(o.pbTarget + FromTrampoline(AlignField(m, o.pTrampoline), eip - o.pTrampoline))
    else Wrap(o.pTrampoline + FromTarget(AlignField(m, o.pTrampoline), eip - o.pbTarget))
  }

  /** Where commit leaves a thread that was suspended at `eip`. */
  function FixEip(m: Mem, ops: seq<Operation>, eip: u32): u32
    decreases |ops|
  {
    if ops == [] then eip else FixEip(m, ops[1..], FixOne(m, ops[0], eip))
  }

  function FixAll(m: Mem, ops: seq<Operation>, threads: seq<u32>): (r: seq<u32>)
    ensures |r| == |threads| && forall i :: 0 <= i < |r| ==> r[i] == FixEip(m, ops, threads[i])
  {
    seq(|threads|, i requires 0 <= i < |threads| => FixEip(m, ops, threads[i]))
  }

  lemma {:induction false} FixElsewhere(m: Mem, ops: seq<Operation>, eip: u32)
    requires forall i :: 0 <= i < |ops| ==> !Strands(m, ops[i], eip)
    ensures FixEip(m, ops, eip) == eip
    decreases |ops|
  {
    hide Strands;
    if ops != [] { FixElsewhere(m, ops[1..], eip); }
  }

  lemma {:induction false} FixAt(m: Mem, ops: seq<Operation>, i: nat, eip: u32)
    requires i < |ops| && forall j :: 0 <= j < i ==> !Strands(m, ops[j], eip)
    requires forall j :: i < j < |ops| ==> !Strands(m, ops[j], FixOne(m, ops[i], eip))
    ensures FixEip(m, ops, eip) == FixOne(m, ops[i], eip)
    decreases |ops|
  {
    hide Strands;
    if i == 0 {
      FixElsewhere(m, ops[1..], FixOne(m, ops[0], eip));
    } else {
      assert FixOne(m, ops[0], eip) == eip by { assert !Strands(m, ops[0], eip); }
      FixAt(m, ops[1..], i - 1, eip);
    }
  }

  lemma OtherTarget(m: Mem, v: View, ops: seq<Operation>, pending: seq<Op>, program: iset<int>, i: nat, j: nat,
                    eip: u32)
    requires Settled(m, v, ops, pending, program) && i < |pending| && j < |pending| && i != j
    requires pending[i].h.target <= eip < pending[i].h.target + pending[i].h.cb
    ensures |ops| == |pending| && !Strands(m, ops[j], eip)
  {
    hide TrampolineHolds, Read32, IsSlot, Outside, LiveSlotsOf, HookHeld, PendingHeld;
    var g, h := pending[i].h, pending[j].h;
    SettledAt(m, v, ops, pending, program, j);
    assert InProgram(g, program);
    assert Covers(g, eip) && eip in program;
    if ops[j].fIsRemove {
      HeldLive(m, v, h, program);
      OutsideTrampoline(v, program, h.code, eip);
    } else {
      HeldRestore(m, v, h, program);
      assert Disjoint(g, h) || Disjoint(h, g);
      assert !Covers(h, eip);
    }
  }

  lemma HeldRestore(m: Mem, v: View, h: Hook, program: iset<int>)
    requires HookHeld(m, v, h, program)
    ensures At(m, h.code + OFF_CB_RESTORE) == h.cb
  {
  }

  lemma OutsideTrampoline(v: View, program: iset<int>, t: u32, a: int)
    requires Outside(v, program) && LiveSlotsOf(v) && t in v.live && a in program
    ensures !(t <= a < t + TRAMPOLINE_SIZE)
  {
    SlotFacts(RegionOf(t), t);
    RegionSpan(RegionOf(t), a);
  }

  lemma OtherTrampoline(m: Mem, v: View, ops: seq<Operation>, pending: seq<Op>, program: iset<int>, i: nat, j: nat,
                        eip: u32)
    requires Settled(m, v, ops, pending, program) && i < |pending| && j < |pending| && i != j
    requires pending[i].h.code <= eip < pending[i].h.code + TRAMPOLINE_SIZE
    ensures |ops| == |pending| && !Strands(m, ops[j], eip)
  {
    hide TrampolineHolds, Read32, IsSlot, Outside, LiveSlotsOf, HookHeld, PendingHeld;
    var g, h := pending[i].h, pending[j].h;
    SettledAt(m, v, ops, pending, program, i);
    SettledAt(m, v, ops, pending, program, j);
    HeldLive(m, v, g, program);
    HeldLive(m, v, h, program);
    if ops[j].fIsRemove {
      TrampolinesApart(v, g.code, h.code);
    } else {
      HeldRestore(m, v, h, program);
      assert InProgram(h, program);
      if h.target <= eip < h.target + h.cb {
        assert Covers(h, eip);
        OutsideTrampoline(v, program, g.code, eip);
      }
    }
  }

  lemma TrampolinesApart(v: View, t: u32, s: u32)
    requires LiveSlotsOf(v) && t in v.live && s in v.live && t != s
    ensures t + TRAMPOLINE_SIZE <= s || s + TRAMPOLINE_SIZE <= t
  {
    hide IsSlot, RegionOf;
    RegionAligned(t);
    RegionAligned(s);
    SlotFacts(RegionOf(t), t);
    SlotFacts(RegionOf(s), s);
    if RegionOf(t) == RegionOf(s) { SlotsApart(RegionOf(t), t, s); } else { RegionsApart(RegionOf(t), RegionOf(s)); }
  }

  ghost predicate Settled(m: Mem, v: View, ops: seq<Operation>, pending: seq<Op>, program: iset<int>)
  {
    && |m| == SPACE && PendingHeld(m, v, ops, pending, program) && PairwiseDisjoint(pending)
    && Outside(v, program) && LiveSlotsOf(v)
    && (forall i, j :: 0 <= i < j < |pending| ==> pending[i].h.code != pending[j].h.code)
    && (forall i :: 0 <= i < |pending| ==> InProgram(pending[i].h, program))
  }

  lemma HeldAlign(m: Mem, v: View, h: Hook, program: iset<int>)
    requires HookHeld(m, v, h, program)
    ensures AlignField(m, h.code) == Align(h.run.marks) && CompleteMarks(h.run.marks)
    ensures RunLength(h) <= h.cb && (RunLength(h) < h.cb ==> RunLength(h) < SIZE_OF_JMP)
  {
    hide Align, CompleteMarks, TrampolineHolds, MeansSame;
  }

  /** Attaching moves a thread stopped in the target's run behind instruction `k` to the same place of
      the trampoline. */
  lemma AttachMovesThread(m: Mem, v: View, ops: seq<Operation>, pending: seq<Op>, program: iset<int>, i: nat, k: nat)
    requires Settled(m, v, ops, pending, program) && i < |pending| && pending[i].Attach?
    requires k < |pending[i].h.run.marks| && pending[i].h.run.marks[k].target < pending[i].h.cb
    ensures var h := pending[i].h;
            FixEip(m, ops, h.target + h.run.marks[k].target) == h.code + h.run.marks[k].code
  {
    hide AlignField, Align, FromTarget, FromTrampoline, Settled, FixEip;
    var h := pending[i].h;
    var marks := h.run.marks;
    SettledAt(m, v, ops, pending, program, i);
    HeldAlign(m, v, h, program);
    LookupTarget(marks, k);
    assert k < |marks| - 1 || marks[k].target == RunLength(h);
    AttachMoves(m, v, ops, pending, program, i, marks[k].target, marks[k].code, Align(marks));
  }

  lemma AttachMoves(m: Mem, v: View, ops: seq<Operation>, pending: seq<Op>, program: iset<int>, i: nat, ob: nat,
                    to: int, align: seq<byte>)
    requires Settled(m, v, ops, pending, program) && i < |pending| && pending[i].Attach?
    requires AlignField(m, pending[i].h.code) == align && FromTarget(align, ob) == to && 0 <= to <= 25
    requires ob < pending[i].h.cb
    ensures FixEip(m, ops, pending[i].h.target + ob) == pending[i].h.code + to
  {
    hide AlignField, FromTarget, FromTrampoline, Strands, FixOne, FixEip, PairwiseDisjoint, PendingHeld,
      LiveSlotsOf, Outside, InProgram, HookHeld, TrampolineHolds;
    var h := pending[i].h;
    var eip := h.target + ob;
    SettledAt(m, v, ops, pending, program, i);
    FixedAttach(m, v, ops[i], h, program, ob);
    forall j | 0 <= j < |ops| && j != i
      ensures !Strands(m, ops[j], eip) && !Strands(m, ops[j], FixOne(m, ops[i], eip))
    {
      OtherTarget(m, v, ops, pending, program, i, j, eip);
      OtherTrampoline(m, v, ops, pending, program, i, j, FixOne(m, ops[i], eip));
    }
    FixAt(m, ops, i, eip);
  }

  lemma HeldPlace(m: Mem, v: View, h: Hook, program: iset<int>)
    requires HookHeld(m, v, h, program)
    ensures h.code + TRAMPOLINE_SIZE <= |m| && h.target + h.cb < SPACE && At(m, h.code + OFF_CB_RESTORE) == h.cb
  {
  }

  lemma SettledAt(m: Mem, v: View, ops: seq<Operation>, pending: seq<Op>, program: iset<int>, i: nat)
    requires Settled(m, v, ops, pending, program) && i < |pending|
    ensures |m| == SPACE && |ops| == |pending| && Matches(ops[i], pending[i]) && HookHeld(m, v, pending[i].h, program)
    ensures pending[i].h.code + TRAMPOLINE_SIZE <= SPACE && pending[i].h.target + pending[i].h.cb < SPACE
    ensures pending[i].h.cb >= SIZE_OF_JMP
  {
    HeldPlace(m, v, pending[i].h, program);
    assert InProgram(pending[i].h, program);
  }

  lemma FixedAttach(m: Mem, v: View, o: Operation, h: Hook, program: iset<int>, ob: nat)
    requires HookHeld(m, v, h, program) && |m| == SPACE && Matches(o, Attach(h)) && ob < h.cb
    requires 0 <= FromTarget(AlignField(m, h.code), ob) <= 25
    ensures h.target + ob < SPACE && Strands(m, o, h.target + ob)
    ensures FixOne(m, o, h.target + ob) == h.code + FromTarget(AlignField(m, h.code), ob)
  {
    hide AlignField, FromTarget, FromTrampoline, HookHeld;
    HeldPlace(m, v, h, program);
  }

  /** A thread stopped at the entry point moves to the trampoline's entry exactly when the length of
      the run is no multiple of eight; otherwise it lands behind the last copied instruction. */
  lemma AttachMovesEntry(m: Mem, v: View, ops: seq<Operation>, pending: seq<Op>, program: iset<int>, i: nat)
    requires Settled(m, v, ops, pending, program) && i < |pending| && pending[i].Attach?
    ensures var h := pending[i].h;
            FixEip(m, ops, h.target) == EntryAfter(h)
  {
    hide AlignField, Align, FromTarget, FromTrampoline, Settled, FixEip;
    var h := pending[i].h;
    var marks := h.run.marks;
    var last := |marks| - 1;
    SettledAt(m, v, ops, pending, program, i);
    HeldAlign(m, v, h, program);
    HeldEnd(m, v, h, program);
    EntryLookup(marks);
    LookupTarget(marks, last);
    AttachMoves(m, v, ops, pending, program, i, 0, if marks[last].target % 8 == 0 then marks[last].code
                else 0, Align(marks));
  }

  lemma HeldEnd(m: Mem, v: View, h: Hook, program: iset<int>)
    requires HookHeld(m, v, h, program)
    ensures h.run.marks != [] && h.run.marks[|h.run.marks| - 1].code == |h.run.out|
  {
    hide Align, TrampolineHolds, MeansSame;
  }

  /** Detaching moves a thread stopped in the trampoline behind the moved instruction `k` to the three
      low bits of that instruction's end in the target, if that lies in the bytes put back: to the same
      place for all but runs longer than seven bytes, of which the end is missed. */
  lemma DetachMovesThread(m: Mem, v: View, ops: seq<Operation>, pending: seq<Op>, program: iset<int>, i: nat, k: nat)
    requires Settled(m, v, ops, pending, program) && i < |pending| && pending[i].Detach?
    requires k < |pending[i].h.run.marks| && pending[i].h.run.marks[k].target % 8 < pending[i].h.cb
    ensures var h := pending[i].h;
            FixEip(m, ops, h.code + h.run.marks[k].code) == h.target + h.run.marks[k].target % 8
  {
    hide AlignField, Align, FromTarget, FromTrampoline, Settled, FixEip;
    var h := pending[i].h;
    SettledAt(m, v, ops, pending, program, i);
    HeldAlign(m, v, h, program);
    LookupTrampoline(h.run.marks, k);
    DetachMoves(m, v, ops, pending, program, i, h.run.marks[k].code, h.run.marks[k].target % 8, Align(h.run.marks));
  }

  /** Which boundaries those are, and which are met exactly: all but the end of a run that fills the bytes
      put back, and all but the end of a run longer than seven bytes. */
  lemma DetachBoundaries(m: Mem, v: View, h: Hook, program: iset<int>, k: nat)
    requires HookHeld(m, v, h, program) && h.cb >= SIZE_OF_JMP && k < |h.run.marks|
    ensures h.run.marks[k].target % 8 < h.cb <==> !(k == |h.run.marks| - 1 && RunLength(h) == h.cb <= 7)
    ensures h.run.marks[k].target % 8 == h.run.marks[k].target <==> k < |h.run.marks| - 1 || RunLength(h) <= 7
  {
    hide Align, AlignField, TrampolineHolds, Carried, HookHeld;
    HeldAlign(m, v, h, program);
    assert k < |h.run.marks| - 1 || h.run.marks[k].target == RunLength(h);
  }

  /** A thread stopped at the trampoline's entry moves to the target's. */
  lemma DetachMovesEntry(m: Mem, v: View, ops: seq<Operation>, pending: seq<Op>, program: iset<int>, i: nat)
    requires Settled(m, v, ops, pending, program) && i < |pending| && pending[i].Detach?
    ensures FixEip(m, ops, pending[i].h.code) == pending[i].h.target
  {
    hide AlignField, Align, FromTarget, FromTrampoline, Settled, FixEip;
    var h := pending[i].h;
    SettledAt(m, v, ops, pending, program, i);
    HeldAlign(m, v, h, program);
    EntryLookup(h.run.marks);
    DetachMoves(m, v, ops, pending, program, i, 0, 0, Align(h.run.marks));
  }

  lemma DetachMoves(m: Mem, v: View, ops: seq<Operation>, pending: seq<Op>, program: iset<int>, i: nat, ob: int,
                    to: nat, align: seq<byte>)
    requires Settled(m, v, ops, pending, program) && i < |pending| && pending[i].Detach?
    requires AlignField(m, pending[i].h.code) == align && FromTrampoline(align, ob) == to
    requires 0 <= ob <= 25 && to < pending[i].h.cb
    ensures FixEip(m, ops, pending[i].h.code + ob) == pending[i].h.target + to
  {
    hide AlignField, FromTarget, FromTrampoline, Strands, FixOne, FixEip, PairwiseDisjoint, PendingHeld,
      LiveSlotsOf, Outside, InProgram, HookHeld, TrampolineHolds;
    var h := pending[i].h;
    var eip := h.code + ob;
    SettledAt(m, v, ops, pending, program, i);
    FixedDetach(m, v, ops[i], h, program, ob);
    forall j | 0 <= j < |ops| && j != i
      ensures !Strands(m, ops[j], eip) && !Strands(m, ops[j], FixOne(m, ops[i], eip))
    {
      OtherTrampoline(m, v, ops, pending, program, i, j, eip);
      OtherTarget(m, v, ops, pending, program, i, j, FixOne(m, ops[i], eip));
    }
    FixAt(m, ops, i, eip);
  }

  /** Where an attach leaves a thread stopped at the entry of its target. */
  function EntryAfter(h: Hook): int { h.code + if RunLength(h) % 8 == 0 then |h.run.out| else 0 }

  /** Where a thread behind the detached target of operation `i` ends up: there, or where an attach
      listed later, to the code that begins there, moves it on. */
  ghost predicate Onward(pending: seq<Op>, i: nat, a: int, to: int)
  {
    && (forall j :: 0 <= j < |pending| && pending[j].Attach? && pending[j].h.target == a ==>
                      to == if j < i then a else EntryAfter(pending[j].h))
    && ((forall j :: 0 <= j < |pending| && pending[j].Attach? ==> pending[j].h.target != a) ==> to == a)
  }

  /** A thread stopped at the end of a run that fills the bytes put back, and is at most seven bytes long,
      moves to the byte behind the target, and on from there if an attach listed later begins there. */
  lemma DetachMovesEnd(m: Mem, v: View, ops: seq<Operation>, pending: seq<Op>, program: iset<int>, i: nat)
    requires Settled(m, v, ops, pending, program) && i < |pending| && pending[i].Detach?
    requires RunLength(pending[i].h) == pending[i].h.cb <= 7
    ensures var h := pending[i].h;
            Onward(pending, i, h.target + h.cb, FixEip(m, ops, h.code + |h.run.out|))
  {
    hide AlignField, Align, FromTarget, FromTrampoline, Settled, FixEip, FixOne, Strands, HookHeld;
    var h := pending[i].h;
    var eip, a := h.code + |h.run.out|, h.target + h.cb;
    SettledAt(m, v, ops, pending, program, i);
    EndFixed(m, v, ops[i], h, program);
    forall j | 0 <= j < |ops| && j != i ensures !Strands(m, ops[j], eip) {
      OtherTrampoline(m, v, ops, pending, program, i, j, eip);
    }
    if j :| 0 <= j < |pending| && pending[j].Attach? && pending[j].h.target == a {
      SameStart(m, v, ops, pending, program, i, j);
      if j < i {
        forall l | i < l < |ops| ensures !Strands(m, ops[l], a) { OtherTarget(m, v, ops, pending, program, j, l, a); }
        FixAt(m, ops, i, eip);
      } else {
        EntryOne(m, v, ops, pending, program, j);
        forall l | 0 <= l < |ops| && l != j
          ensures !Strands(m, ops[l], a) && !Strands(m, ops[l], FixOne(m, ops[j], a)) {
          OtherTarget(m, v, ops, pending, program, j, l, a);
          SettledAt(m, v, ops, pending, program, j);
          OtherTrampoline(m, v, ops, pending, program, j, l, FixOne(m, ops[j], a));
        }
        FixTwice(m, ops, i, j, eip);
      }
    } else {
      forall l | i < l < |ops| ensures !Strands(m, ops[l], a) { NotStranded(m, v, ops, pending, program, i, l); }
      FixAt(m, ops, i, eip);
    }
  }

  /** Only one attach begins at an address. */
  lemma SameStart(m: Mem, v: View, ops: seq<Operation>, pending: seq<Op>, program: iset<int>, i: nat, j: nat)
    requires Settled(m, v, ops, pending, program) && i < |pending| && j < |pending| && pending[i].Detach?
    requires pending[j].Attach? && pending[j].h.target == pending[i].h.target + pending[i].h.cb
    ensures forall l :: 0 <= l < |pending| && pending[l].Attach? && pending[l].h.target == pending[j].h.target ==>
                          l == j
    ensures pending[j].h.target < pending[j].h.target + pending[j].h.cb
  {
    hide HookHeld, LiveSlotsOf, Outside, PendingHeld;
    var a := pending[j].h.target;
    assert InProgram(pending[j].h, program);
    forall l | 0 <= l < |pending| && pending[l].Attach? && pending[l].h.target == a ensures l == j {
      assert InProgram(pending[l].h, program);
      NotDisjoint(pending[l].h, pending[j].h, a);
      NotDisjoint(pending[j].h, pending[l].h, a);
    }
  }

  lemma NotDisjoint(g: Hook, h: Hook, a: int)
    requires Covers(g, a) && Covers(h, a)
    ensures !Disjoint(g, h)
  {
  }

  /** A target does not reach over the end of one it has no byte in common with. */
  lemma EndsApart(g: Hook, h: Hook)
    requires Disjoint(g, h) || Disjoint(h, g)
    requires g.cb > 0
    ensures !(h.target < g.target + g.cb < h.target + h.cb)
  {
    var a := g.target + g.cb - 1;
    assert !(Covers(g, a) && Covers(h, a));
  }

  lemma {:induction false} FixTwice(m: Mem, ops: seq<Operation>, i: nat, j: nat, eip: u32)
    requires i < j < |ops| && forall l :: 0 <= l < i ==> !Strands(m, ops[l], eip)
    requires forall l :: i < l < j ==> !Strands(m, ops[l], FixOne(m, ops[i], eip))
    requires forall l :: j < l < |ops| ==> !Strands(m, ops[l], FixOne(m, ops[j], FixOne(m, ops[i], eip)))
    ensures FixEip(m, ops, eip) == FixOne(m, ops[j], FixOne(m, ops[i], eip))
    decreases |ops|
  {
    hide Strands;
    if i == 0 {
      FixAt(m, ops[1..], j - 1, FixOne(m, ops[0], eip));
    } else {
      assert FixOne(m, ops[0], eip) == eip by { assert !Strands(m, ops[0], eip); }
      FixTwice(m, ops[1..], i - 1, j - 1, eip);
    }
  }

  lemma EndFixed(m: Mem, v: View, o: Operation, h: Hook, program: iset<int>)
    requires HookHeld(m, v, h, program) && |m| == SPACE && Matches(o, Detach(h)) && RunLength(h) == h.cb <= 7
    ensures h.code + |h.run.out| < SPACE && |h.run.out| <= 25 && h.target + h.cb < SPACE
    ensures FixOne(m, o, h.code + |h.run.out|) == h.target + h.cb
  {
    hide AlignField, Align, FromTarget, FromTrampoline, FixOne, HookHeld;
    HeldAlign(m, v, h, program);
    HeldEnd(m, v, h, program);
    HeldPlace(m, v, h, program);
    LookupTrampoline(h.run.marks, |h.run.marks| - 1);
    FixedDetach(m, v, o, h, program, |h.run.out|);
  }

  /** One attach moves a thread at the entry of its target. */
  lemma EntryOne(m: Mem, v: View, ops: seq<Operation>, pending: seq<Op>, program: iset<int>, j: nat)
    requires Settled(m, v, ops, pending, program) && j < |pending| && pending[j].Attach?
    ensures |ops| == |pending| && 0 <= EntryAfter(pending[j].h) < SPACE
    ensures FixOne(m, ops[j], pending[j].h.target) == EntryAfter(pending[j].h) <= pending[j].h.code + 25
    ensures pending[j].h.code <= EntryAfter(pending[j].h)
  {
    hide AlignField, Align, FromTarget, FromTrampoline, Settled, FixOne, HookHeld;
    var h := pending[j].h;
    SettledAt(m, v, ops, pending, program, j);
    HeldAlign(m, v, h, program);
    HeldEnd(m, v, h, program);
    EntryLookup(h.run.marks);
    LookupTarget(h.run.marks, |h.run.marks| - 1);
    FixedAttach(m, v, ops[j], h, program, 0);
  }

  /** The first byte behind a target is stranded only by a pending attach that begins there. */
  lemma NotStranded(m: Mem, v: View, ops: seq<Operation>, pending: seq<Op>, program: iset<int>, i: nat, j: nat)
    requires Settled(m, v, ops, pending, program) && i < |pending| && j < |pending| && i != j
    requires pending[j].Attach? ==> pending[j].h.target != pending[i].h.target + pending[i].h.cb
    ensures |ops| == |pending| && pending[i].h.target + pending[i].h.cb < SPACE
            && !Strands(m, ops[j], pending[i].h.target + pending[i].h.cb)
  {
    hide TrampolineHolds, Carried, Read32, IsSlot, Outside, LiveSlotsOf, PendingHeld;
    var g, h := pending[i].h, pending[j].h;
    SettledAt(m, v, ops, pending, program, i);
    SettledAt(m, v, ops, pending, program, j);
    HeldRestore(m, v, h, program);
    HeldLive(m, v, h, program);
    if ops[j].fIsRemove {
      BehindInProgram(m, v, g, program);
      OutsideTrampoline(v, program, h.code, g.target + g.cb);
    } else {
      EndsApart(g, h);
    }
  }

  lemma BehindInProgram(m: Mem, v: View, h: Hook, program: iset<int>)
    requires HookHeld(m, v, h, program)
    ensures h.target + h.cb in program
  {
  }

  lemma FixedDetach(m: Mem, v: View, o: Operation, h: Hook, program: iset<int>, ob: nat)
    requires HookHeld(m, v, h, program) && |m| == SPACE && Matches(o, Detach(h)) && ob <= 25
    requires 0 <= FromTrampoline(AlignField(m, h.code), ob) <= h.cb
    ensures h.code + ob < SPACE && Strands(m, o, h.code + ob)
    ensures FixOne(m, o, h.code + ob) == h.target + FromTrampoline(AlignField(m, h.code), ob)
  {
    hide AlignField, FromTarget, FromTrampoline, HookHeld;
    HeldPlace(m, v, h, program);
  }

  /** Where a commit of `pending` resumes a thread that was stopped at `eip`: at the same instruction of
      the trampoline or of the target, but for the entry of a run of eight or sixteen bytes on attach and
      the end of a run longer than seven bytes on detach; from the end of a run that fills its target, on
      into a function that begins there if an attach to that is listed later; and where it was, if it was
      in none of these. */
  ghost predicate Resumes(pending: seq<Op>, eip: int, to: int)
  {
    && (forall i, k :: 0 <= i < |pending| && pending[i].Attach? && 0 <= k < |pending[i].h.run.marks| ==>
                         var h := pending[i].h;
                         h.run.marks[k].target < h.cb && eip == h.target + h.run.marks[k].target ==>
                           to == h.code + h.run.marks[k].code)
    && (forall i :: 0 <= i < |pending| && pending[i].Attach? ==>
                      var h := pending[i].h; eip == h.target ==> to == EntryAfter(h))
    && (forall i, k :: 0 <= i < |pending| && pending[i].Detach? && 0 <= k < |pending[i].h.run.marks| ==>
                         var h := pending[i].h;
                         h.run.marks[k].target % 8 < h.cb && eip == h.code + h.run.marks[k].code ==>
                           to == h.target + h.run.marks[k].target % 8)
    && (forall i :: 0 <= i < |pending| && pending[i].Detach? ==>
                      var h := pending[i].h; eip == h.code ==> to == h.target)
    && (forall i :: 0 <= i < |pending| && pending[i].Detach? ==>
                      var h := pending[i].h;
                      RunLength(h) == h.cb <= 7 && eip == h.code + |h.run.out| ==>
                        Onward(pending, i, h.target + h.cb, to))
    && ((forall i :: 0 <= i < |pending| ==> !Holding(pending[i], eip)) ==> to == eip)
  }

  /** The operation removes the code at `eip`. */
  predicate Holding(op: Op, eip: int)
  {
    if op.Attach? then op.h.target <= eip < op.h.target + op.h.cb else op.h.code <= eip < op.h.code + TRAMPOLINE_SIZE
  }

  /** That is where the loops over threads and operations leave it. */
  lemma ThreadResumes(m: Mem, v: View, ops: seq<Operation>, pending: seq<Op>, program: iset<int>, eip: u32)
    requires Settled(m, v, ops, pending, program)
    ensures Resumes(pending, eip, FixEip(m, ops, eip))
  {
    hide Settled, FixEip, Strands, Onward, EntryAfter;
    forall i | 0 <= i < |pending| && pending[i].Attach?
      ensures var h := pending[i].h; eip == h.target ==> FixEip(m, ops, eip) == EntryAfter(h)
    {
      AttachMovesEntry(m, v, ops, pending, program, i);
    }
    forall i, k | 0 <= i < |pending| && pending[i].Attach? && 0 <= k < |pending[i].h.run.marks|
      ensures var h := pending[i].h;
              h.run.marks[k].target < h.cb && eip == h.target + h.run.marks[k].target ==>
                FixEip(m, ops, eip) == h.code + h.run.marks[k].code
    {
      if pending[i].h.run.marks[k].target < pending[i].h.cb { AttachMovesThread(m, v, ops, pending, program, i, k); }
    }
    forall i | 0 <= i < |pending| && pending[i].Detach?
      ensures var h := pending[i].h; eip == h.code ==> FixEip(m, ops, eip) == h.target
      ensures var h := pending[i].h;
              RunLength(h) == h.cb <= 7 && eip == h.code + |h.run.out| ==>
                Onward(pending, i, h.target + h.cb, FixEip(m, ops, eip))
    {
      DetachMovesEntry(m, v, ops, pending, program, i);
      if RunLength(pending[i].h) == pending[i].h.cb <= 7 { DetachMovesEnd(m, v, ops, pending, program, i); }
    }
    forall i, k | 0 <= i < |pending| && pending[i].Detach? && 0 <= k < |pending[i].h.run.marks|
      ensures var h := pending[i].h;
              h.run.marks[k].target % 8 < h.cb && eip == h.code + h.run.marks[k].code ==>
                FixEip(m, ops, eip) == h.target + h.run.marks[k].target % 8
    {
      if pending[i].h.run.marks[k].target % 8 < pending[i].h.cb {
        DetachMovesThread(m, v, ops, pending, program, i, k);
      }
    }
    if forall i :: 0 <= i < |pending| ==> !Holding(pending[i], eip) {
      UntouchedThread(m, v, ops, pending, program, eip);
    }
  }

  lemma UntouchedThread(m: Mem, v: View, ops: seq<Operation>, pending: seq<Op>, program: iset<int>, eip: u32)
    requires Settled(m, v, ops, pending, program) && forall i :: 0 <= i < |pending| ==> !Holding(pending[i], eip)
    ensures FixEip(m, ops, eip) == eip
  {
    hide Settled, FixEip, HookHeld;
    assert |ops| ==
           |pending| by { if pending != [] { SettledAt(m, v, ops, pending, program, 0); }
                          else { NoOperations(m, v, ops, pending, program); } }
    forall i | 0 <= i < |ops| ensures !Strands(m, ops[i], eip) {
      SettledAt(m, v, ops, pending, program, i);
      HeldRestore(m, v, pending[i].h, program);
    }
    FixElsewhere(m, ops, eip);
  }

  lemma NoOperations(m: Mem, v: View, ops: seq<Operation>, pending: seq<Op>, program: iset<int>)
    requires Settled(m, v, ops, pending, program)
    ensures |ops| == |pending|
  {
  }

  // ------------------------------------------------------------------------ commit's own state

  /** Between patching and the return of the last removed trampoline: `ops` are those whose
      trampolines may still have to go back. */
  ghost predicate Committing(m: Mem, v: View, base: Mem, hooks: seq<Hook>, program: iset<int>, ops: seq<Operation>,
                             pending: seq<Op>)
  {
    && Consistent(base, m, hooks, program) && Outside(v, program)
    && HooksHeld(m, v, hooks, program) && DistinctCodes(hooks)
    && PendingHeld(m, v, ops, pending, program)
    && (forall i, j :: 0 <= i < j < |pending| ==> pending[i].h.code != pending[j].h.code)
    && (forall i :: 0 <= i < |pending| && pending[i].Detach? ==> pending[i].h.code !in Codes(hooks))
    && Live(v, Codes(hooks) + DetachCodes(pending))
  }

  lemma PatchedState(m: Mem, n: Mem, pRegions: int, pRegion: int, v: View, base: Mem, hooks: seq<Hook>,
                     program: iset<int>, ops: seq<Operation>, pending: seq<Op>)
    requires HeapOk(m, pRegions, pRegion, v) && StateOk(m, v, base, hooks, program, ops, pending)
    requires n == HookLayers.Run(m, pending) && OutsideSame(m, n, program)
    ensures HeapOk(n, pRegions, pRegion, v)
    ensures Committing(n, v, BaseRun(base, pending), HooksRun(hooks, pending), program, ops, pending)
  {
    hide HeapOk, Consistent, CapturedBefore, PairwiseDisjoint, Outside, HookHeld, Matches, Codes, AttachCodes,
      DetachCodes, BaseRun, HooksRun, HookLayers.Run, OutsideSame, SameTrampolines, LegalRun;
    ProgramWrites(m, n, pRegions, pRegion, v, program);
    TransactionLegal(base, m, hooks, pending, program);
    TransactionConsistent(base, m, hooks, pending, program);
    CodesRun(m, hooks, pending, program);
    var after := HooksRun(hooks, pending);
    forall i | 0 <= i < |pending| ensures pending[i].h.code in v.live { HeldLive(m, v, pending[i].h, program); }
    PendingKept(m, n, v, v, ops, pending, program, v.live);
    forall i | 0 <= i < |after| ensures HookHeld(m, v, after[i], program) && after[i].code in v.live {
      RunMembers(hooks, pending, after[i]);
      MemberHeld(m, v, hooks, ops, pending, program, after[i]);
      HeldLive(m, v, after[i], program);
    }
    assert HooksHeld(m, v, after, program);
    AllHeldKept(m, n, v, v, after, program, v.live);
    forall i | 0 <= i < |pending| && pending[i].Detach?
      ensures pending[i].h.code !in Codes(after) { OpCode(pending, i); }
    FitCodes(hooks, pending);
    assert Codes(after) + DetachCodes(pending) == Codes(hooks) + AttachCodes(pending);
  }

  lemma MemberHeld(m: Mem, v: View, hooks: seq<Hook>, ops: seq<Operation>, pending: seq<Op>, program: iset<int>,
                   h: Hook)
    requires HooksHeld(m, v, hooks, program) && PendingHeld(m, v, ops, pending, program)
    requires h in hooks || Attach(h) in pending
    ensures HookHeld(m, v, h, program)
  {
    hide HookHeld;
    if h in hooks {
      var i :| 0 <= i < |hooks| && hooks[i] == h;
    } else {
      var i :| 0 <= i < |pending| && pending[i] == Attach(h);
      assert HookHeld(m, v, pending[i].h, program);
    }
  }

  lemma FitCodes(hooks: seq<Hook>, pending: seq<Op>)
    requires OpsFit(hooks, pending)
    ensures DetachCodes(pending) <= Codes(hooks) && DetachCodes(pending) !! AttachCodes(pending)
  {
    hide Codes;
    forall c | c in DetachCodes(pending) ensures c in Codes(hooks) {
      var op :| op in pending && op.Detach? && op.h.code == c;
      var i :| 0 <= i < |pending| && pending[i] == op;
      assert pending[i].h.code in Codes(hooks);
    }
    forall c | c in AttachCodes(pending) ensures c !in Codes(hooks) {
      var op :| op in pending && op.Attach? && op.h.code == c;
      var i :| 0 <= i < |pending| && pending[i] == op;
      assert pending[i].h.code !in Codes(hooks);
    }
  }

  /** One operation done with: a removed hook's trampoline has gone back. */
  lemma DoneOperation(m: Mem, n: Mem, v: View, w: View, base: Mem, hooks: seq<Hook>, program: iset<int>,
                      ops: seq<Operation>, pending: seq<Op>)
    requires Committing(m, v, base, hooks, program, ops, pending) && ops != []
    requires SameProgram(m, n, program) && SameTrampolines(m, n, w.live) && Outside(w, program)
    requires w.live == if ops[0].fIsRemove then v.live - {ops[0].pTrampoline} else v.live
    ensures Committing(n, w, base, hooks, program, ops[1..], pending[1..])
  {
    hide Consistent, Outside, DistinctCodes, SameProgram, SameTrampolines, HookHeld, Codes, DetachCodes;
    ConsistentKept(base, m, n, hooks, program);
    var op, rest := pending[0], pending[1..];
    assert pending == [op] + rest && Matches(ops[0], op);
    CodesCons(op, rest);
    CodesApart(op, rest);
    forall i | 0 <= i < |hooks| ensures hooks[i].code in w.live {
      HeldLive(m, v, hooks[i], program);
      HookCode(hooks, i);
    }
    forall i | 0 <= i < |rest| ensures rest[i].h.code in w.live {
      assert rest[i] == pending[i + 1];
      HeldLive(m, v, pending[i + 1].h, program);
    }
    AllHeldKept(m, n, v, w, hooks, program, w.live);
    PendingRest(m, v, ops, pending, program);
    PendingKept(m, n, v, w, ops[1..], rest, program, w.live);
  }

  lemma PendingRest(m: Mem, v: View, ops: seq<Operation>, pending: seq<Op>, program: iset<int>)
    requires PendingHeld(m, v, ops, pending, program) && ops != []
    ensures PendingHeld(m, v, ops[1..], pending[1..], program)
  {
    hide HookHeld, Matches;
  }

  lemma CommittedState(m: Mem, v: View, base: Mem, hooks: seq<Hook>, program: iset<int>)
    requires Committing(m, v, base, hooks, program, [], [])
    ensures StateOk(m, v, base, hooks, program, [], []) && Live(v, Codes(hooks))
  {
    hide Consistent, Outside, HooksHeld, DistinctCodes;
    assert Codes(hooks) + DetachCodes([]) == Codes(hooks) && Codes(hooks) + AttachCodes([]) == Codes(hooks);
  }

  // ------------------------------------------------------------------------------- the sweep

  lemma HookedOutside(m: Mem, v: View, hooks: seq<Hook>, program: iset<int>)
    requires HooksHeld(m, v, hooks, program) && Outside(v, program) && LiveSlotsOf(v) && Live(v, Codes(hooks))
             && |m| == SPACE
    requires forall i :: 0 <= i < |hooks| ==> hooks[i].cb >= SIZE_OF_JMP
    ensures LiveOutside(m, v.live)
  {
    hide Read32, RegionOf, Live, IsSlot, Codes, HookHeld;
    forall t | t in v.live ensures Link(m, t) != 0 && RegionOf(Link(m, t)) != RegionOf(t) {
      LiveCode(v, hooks, t);
      var i := CodeIndex(hooks, t);
      HeldRemain(m, v, hooks[i], program);
    }
  }

  lemma HeldRemain(m: Mem, v: View, h: Hook, program: iset<int>)
    requires HookHeld(m, v, h, program)
    ensures Read32(m, h.code + OFF_REMAIN) == h.target + h.cb && h.target + h.cb in program
  {
  }

  lemma LiveCode(v: View, hooks: seq<Hook>, t: u32)
    requires Live(v, Codes(hooks)) && t in v.live
    ensures t in Codes(hooks)
  {
  }

  /** Rewriting list links leaves the program and the trampolines alone. */
  lemma SweepKeeps(m: Mem, n: Mem, v: View, w: View, program: iset<int>)
    requires Outside(v, program) && LiveSlotsOf(w) && w.live == v.live
    requires forall r :: r in w.regions ==> r in v.regions && RegionPlace(r)
    requires OnlyLinks(m, n, w.regions)
    ensures SameProgram(m, n, program) && SameTrampolines(m, n, w.live) && Outside(w, program)
  {
    hide RegionOf, IsSlot;
    forall a | a in program && 0 <= a < |m| ensures n[a] == m[a] {
      RegionAligned(a);
      assert RegionOf(a) !in v.regions;
      NotNextField(w.regions, a, RegionOf(a));
    }
    forall t | t in w.live ensures Agree(m, n, t, t + TRAMPOLINE_SIZE) {
      SlotFacts(RegionOf(t), t);
      forall a | t <= a < t + TRAMPOLINE_SIZE && 0 <= a < |m| ensures m[a] == n[a] {
        RegionSpan(RegionOf(t), a);
        NotNextField(w.regions, a, RegionOf(t));
      }
    }
  }

  lemma NotNextField(regions: seq<u32>, a: int, r: int)
    requires r % REGION_SIZE == 0 && RegionOf(a) == r && (r in regions ==> r + OFF_FREE <= a)
    requires forall q :: q in regions ==> q % REGION_SIZE == 0
    ensures !InNextField(regions, a)
  {
    forall q | q in regions ensures !(q + OFF_NEXT <= a < q + OFF_FREE) {
      RegionSpan(q, a);
    }
  }
}

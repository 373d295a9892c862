/** Hook transactions: begin, attach, detach, thread updates, abort and commit. */
module DetourTransaction {
  import opened Options
  import opened Memory
  import opened X86Flow
  import opened X86Length
  import opened X86Disasm
  import opened X86Relocation
  import opened X86Copier
  import opened X86Trampoline
  import opened HookLayers
  import opened DetourCopy
  import opened TrampolineHeap
  import opened TrampolineAllocator
  import opened TrampolineRegions
  import opened DetourState
  import opened DetourFrames
  import opened DetourCommit
  import opened DetourSteps

  const NO_ERROR := 0
  const ERROR_INVALID_HANDLE := 6
  const ERROR_NOT_ENOUGH_MEMORY := 8
  const ERROR_INVALID_BLOCK := 9
  const ERROR_INVALID_PARAMETER := 87
  const ERROR_INVALID_OPERATION := 4317

  /** The run of instructions attach would copy from `target` to a trampoline at `t`. */
  function RunAt(tables: Tables, m: Mem, t: int, target: u32): Run
  {
    match CopyRun(tables, m, t, target, 0, 0)
    case Some(run) => run
    case None => Run.Run([], [])
  }

  lemma {:induction false} MovableRuns(tables: Tables, m: Mem, code: int, target: nat, ot: nat, ob: int)
    requires Movable(tables, m, code, target, ot, ob)
    ensures CopyRun(tables, m, code, target, ot, ob).Some?
    decreases SIZE_OF_JMP - ot
  {
    hide CopyAt, FlowAt, Relocatable, EndsFunction, Misread;
    if ot < SIZE_OF_JMP && !EndsFunction(m, target + ot) {
      var c := CopyAt(tables, m, code + ob, target + ot).value;
      MovableRuns(tables, m, code, target, ot + c.len, ob + c.len + c.extra);
    }
  }

  ghost predicate Window(program: iset<int>, target: int)
  {
    target + WINDOW <= SPACE && forall a :: target <= a < target + WINDOW ==> a in program
  }

  /** Once a trampoline is taken, the run found before can be copied into it. */
  lemma FillReady(tables: Tables, m: Mem, n: Mem, w: View, program: iset<int>, t: u32, target: u32)
    requires TablesOk(tables) && |m| == SPACE && SameProgram(m, n, program) && Window(program, target)
             && Outside(w, program)
    requires IsSlot(RegionOf(t), t) && RegionOf(t) in w.regions
    requires Movable(tables, m, t, target, 0, 0)
    ensures CopyRun(tables, m, t, target, 0, 0) == Some(RunAt(tables, m, t, target))
    ensures Movable(tables, n, t, target, 0, 0)
            && CopyRun(tables, n, t, target, 0, 0) == Some(RunAt(tables, m, t, target))
    ensures target + WINDOW <= t || t + TRAMPOLINE_SIZE <= target
    ensures t + TRAMPOLINE_SIZE <= SPACE
    ensures forall run: Run :: Patchable(n, target, run) == Patchable(m, target, run)
    ensures forall k: nat :: k <= WINDOW ==> Slice(n, target, k) == Slice(m, target, k)
  {
    hide TablesOk, Movable, CopyRun, IsSlot, SkipFillers, RegionOf;
    WindowSame(m, n, program, target);
    MovableRuns(tables, m, t, target, 0, 0);
    RunLocal(tables, m, n, t, target, 0, 0, RunAt(tables, m, t, target));
    WindowApart(w, program, t, target);
    forall run: Run ensures Patchable(n, target, run) == Patchable(m, target, run) {
      SkipLocal(m, n, target, if run.marks == [] then 0 else run.marks[|run.marks| - 1].target);
    }
    forall k: nat | k <= WINDOW ensures Slice(n, target, k) == Slice(m, target, k) {
      SliceSame(m, n, target, k);
    }
  }

  lemma WindowSame(m: Mem, n: Mem, program: iset<int>, target: u32)
    requires |m| == SPACE && SameProgram(m, n, program) && Window(program, target)
    ensures SameWindow(m, n, target)
  {
  }

  lemma SliceSame(m: Mem, n: Mem, a: nat, k: nat)
    requires SameWindow(m, n, a) && k <= WINDOW
    ensures Slice(m, a, k) == Slice(n, a, k)
  {
    var s, t := Slice(m, a, k), Slice(n, a, k);
    assert forall i :: 0 <= i < k ==> s[i] == t[i];
  }

  lemma WindowApart(w: View, program: iset<int>, t: u32, target: u32)
    requires Window(program, target) && Outside(w, program) && IsSlot(RegionOf(t), t) && RegionOf(t) in w.regions
    ensures (target + WINDOW <= t || t + TRAMPOLINE_SIZE <= target) && t + TRAMPOLINE_SIZE <= SPACE
  {
    RegionAligned(t);
    SlotFacts(RegionOf(t), t);
    RegionSpan(RegionOf(t), target);
    RegionSpan(RegionOf(t), target + WINDOW - 1);
    RegionSpan(RegionOf(t), if target < t then t else target);
    assert target in program && target + WINDOW - 1 in program;
  }

  function AttachHookOf(m: Mem, tables: Tables, ppPointer: nat, target: u32, detour: u32, t: u32): Hook
  {
    HookMade(m, ppPointer, target, Patchable(m, target, RunAt(tables, m, t, target)), t, detour,
             RunAt(tables, m, t, target))
  }

  /** What attaching asks: code around the target that can be moved to the trampoline `to`, and no overlap
      with another operation of the transaction. */
  ghost predicate AttachableAt(m: Mem, hooks: seq<Hook>, pending: seq<Op>, program: iset<int>, tables: Tables,
                               to: int, h: Hook)
  {
    && Window(program, h.target)
    && (to != 0 ==> Movable(tables, m, to, h.target, 0, 0))
    && (to != 0 && h.cb >= SIZE_OF_JMP ==>
          && MayAttach(m, hooks, h, program)
          && forall i :: 0 <= i < |pending| ==> Disjoint(h, pending[i].h))
  }

  lemma HeapFacts(m: Mem, pRegions: int, pRegion: int, v: View)
    requires HeapOk(m, pRegions, pRegion, v)
    ensures |m| == SPACE && LiveSlotsOf(v) && 0 !in v.live
    ensures forall r :: r in v.regions ==> r in v.free
  {
    LiveSlots(m, pRegions, pRegion, v);
    if 0 in v.live { TrampolineSpot(m, pRegions, pRegion, v, 0); }
  }

  /** Patching leaves the pending operations as the loop over threads needs them. */
  lemma SettledAfter(m: Mem, n: Mem, pRegions: int, pRegion: int, v: View, base: Mem, hooks: seq<Hook>, base': Mem,
                     hooks': seq<Hook>,
                     program: iset<int>, ops: seq<Operation>, pending: seq<Op>)
    requires HeapOk(m, pRegions, pRegion, v) && StateOk(m, v, base, hooks, program, ops, pending)
    requires HeapOk(n, pRegions, pRegion, v) && Committing(n, v, base', hooks', program, ops, pending)
    ensures Settled(n, v, ops, pending, program)
  {
    hide HeapOk, Consistent, CapturedBefore, HooksHeld, PendingHeld, InProgram, LiveSlotsOf, PairwiseDisjoint,
      Outside, Codes, AttachCodes, DetachCodes;
    HeapFacts(m, pRegions, pRegion, v);
    HeapFacts(n, pRegions, pRegion, v);
    PendingInProgram(base, m, hooks, pending, program);
  }

  /** The hook captured from `m`, with the trampoline then filled in `n` to give `p`, is held. */
  lemma AttachedHeld(tables: Tables, m: Mem, n: Mem, p: Mem, v: View, program: iset<int>, g: Hook, h: Hook)
    requires TablesOk(tables) && Movable(tables, m, h.code, h.target, 0, 0)
    requires CopyRun(tables, m, h.code, h.target, 0, 0) == Some(h.run)
    requires h.source == m && h.saved == Slice(m, h.target, h.cb) && h.cb == Patchable(m, h.target, h.run)
    requires TrampolineHolds(p, g) && g == h.(source := n)
    requires Carries(n, p, h.code, h.target, h.run) && Holds(p, h.code, h.run.out)
             && At(p, h.code + OFF_CB_CODE) == |h.run.out|
    requires At(p, h.code) != 0xeb && h.code in v.live && Window(program, h.target) && h.cb < WINDOW
    ensures HookHeld(p, v, h, program) && Carries(m, p, h.code, h.target, h.run)
  {
    hide TrampolineHolds, Carried, Carries, Holds, Movable, TablesOk, CopyRun, SkipFillers, Slice;
    HoldsAlike(p, g, h);
    CarriesFrom(tables, m, n, p, h.code, h.target, h.run);
    HookCaptured(tables, m, p, h);
  }

  /** What an allocation leaves. */
  lemma AfterAlloc(m: Mem, n: Mem, pRegions: int, pRegion: int, pRegions': int, pRegion': int, v: View, g: View,
                   w: View, t: u32, newRegion: u32, fromNew: bool,
                   program: iset<int>, imported: (int, int) -> bool, base: Mem, hooks: seq<Hook>,
                   ops: seq<Operation>, pending: seq<Op>, begun: View)
    requires HeapOk(m, pRegions, pRegion, v) && HeapOk(n, pRegions', pRegion', w)
    requires StateOk(m, v, base, hooks, program, ops, pending) && NotImported(v, imported)
    requires newRegion != 0 ==> FreshPlace(v, program, imported, newRegion)
    requires fromNew ==> newRegion != 0
    requires g == if fromNew then Grown(v, newRegion) else v
    requires AllocFrame(m, n, t, if fromNew then newRegion else 0) && if t == 0 then w == g else TakenFrom(g, w, t)
    requires Returned(FreedBy(v, ops), begun) && forall r :: r in begun.regions ==> r in v.regions
    ensures SameProgram(m, n, program) && SameTrampolines(m, n, v.live) && |m| == |n| == SPACE
    ensures Outside(w, program) && NotImported(w, imported) && w.live == v.live + if t == 0 then {} else {t}
    ensures t != 0 ==> t !in v.live && IsSlot(RegionOf(t), t) && RegionOf(t) in w.regions
    ensures (forall r :: r in v.regions ==> r in w.regions) && g.live == v.live && GrownBy(v, g, newRegion)
    ensures LiveSlotsOf(w) && (forall r :: r in w.regions ==> r in w.free)
    ensures Returned(FreedBy(g, ops), begun) && OpsPlaced(v, ops)
    ensures newRegion != 0 ==> newRegion !in begun.regions && newRegion !in v.regions
    ensures t == 0 ==> StateOk(n, w, base, hooks, program, ops, pending)
  {
    hide HeapOk, StateOk, AllocFrame, FreshPlace, NotImported, Outside, SameProgram, SameTrampolines, IsSlot,
      RegionOf, Grown, FreedBy, Returned, OpsPlaced, LiveSlotsOf, PendingHeld, Consistent;
    if newRegion != 0 { FreshFacts(v, program, imported, newRegion, begun); }
    StateParts(m, v, base, hooks, program, ops, pending);
    PendingPlaced(m, pRegions, pRegion, v, ops, pending, program);
    AllocStep(m, n, pRegions, pRegion, v, g, w, t, newRegion, if fromNew then newRegion else 0, program, imported);
    GrownUndo(v, g, ops, begun, newRegion);
    HeapFacts(m, pRegions, pRegion, v);
    HeapFacts(n, pRegions', pRegion', w);
    if t == 0 { StateKept(m, n, v, w, base, hooks, program, ops, pending); }
  }

  /** What filling the trampoline leaves. */
  lemma AfterFill(m: Mem, n: Mem, p: Mem, pRegions: int, pRegion: int, v: View, w: View, program: iset<int>, t: u32)
    requires HeapOk(n, pRegions, pRegion, w) && SameProgram(m, n, program) && SameTrampolines(m, n, v.live)
             && OnlyTrampoline(n, p, t)
    requires Outside(w, program) && IsSlot(RegionOf(t), t) && RegionOf(t) in w.regions
    requires w.live == v.live + {t} && t !in v.live && |m| == |n|
    ensures HeapOk(p, pRegions, pRegion, w) && SameProgram(m, p, program) && SameTrampolines(m, p, v.live)
            && |p| == SPACE
  {
    hide HeapOk, Outside, SameProgram, SameTrampolines, OnlyTrampoline, IsSlot, RegionOf;
    HeapFacts(n, pRegions, pRegion, w);
    FillStep(m, n, p, v, w, program, t);
    HeapFill(n, p, pRegions, pRegion, w, t);
    HeapFacts(p, pRegions, pRegion, w);
  }

  /** What returning it again leaves. */
  lemma AfterReturn(m: Mem, p: Mem, q: Mem, v: View, g: View, w: View, x: View, program: iset<int>,
                    imported: (int, int) -> bool, t: u32,
                    base: Mem, hooks: seq<Hook>, ops: seq<Operation>, pending: seq<Op>)
    requires SameProgram(m, p, program) && SameTrampolines(m, p, v.live) && |m| == |p|
    requires AllocFrame(p, q, t, 0) && Outside(w, program) && NotImported(w, imported) && LiveSlotsOf(w)
             && t in w.live && t != 0
    requires w.live == v.live + {t} && t !in v.live && g.live == v.live && TakenFrom(g, w, t)
    requires RegionOf(t) in w.free && x == PushView(w, t) && StateOk(m, v, base, hooks, program, ops, pending)
    ensures SameProgram(m, q, program) && x == g && NotImported(x, imported) && x.regions == w.regions
    ensures StateOk(q, x, base, hooks, program, ops, pending)
  {
    hide StateOk, AllocFrame, NotImported, Outside, SameProgram, SameTrampolines, RegionOf, TakenFrom, LiveSlotsOf;
    ReturnStep(m, p, q, v, g, w, x, program, imported, t);
    StateKept(m, q, v, x, base, hooks, program, ops, pending);
  }

  /** Queueing its attach then keeps the state. */
  lemma QueueStep(tables: Tables, m: Mem, n: Mem, p: Mem, v: View, w: View, base: Mem, hooks: seq<Hook>,
                  program: iset<int>,
                  ops: seq<Operation>, pending: seq<Op>, o: Operation, g: Hook, h: Hook)
    requires TablesOk(tables) && Movable(tables, m, h.code, h.target, 0, 0)
    requires CopyRun(tables, m, h.code, h.target, 0, 0) == Some(h.run)
    requires h.source == m && h.saved == Slice(m, h.target, h.cb) && h.cb == Patchable(m, h.target, h.run)
    requires TrampolineHolds(p, g) && g == h.(source := n)
    requires Carries(n, p, h.code, h.target, h.run) && Holds(p, h.code, h.run.out)
             && At(p, h.code + OFF_CB_CODE) == |h.run.out|
    requires At(p, h.code) != 0xeb && Window(program, h.target) && h.cb < WINDOW
    requires StateOk(m, v, base, hooks, program, ops, pending)
    requires SameProgram(m, p, program) && SameTrampolines(m, p, v.live) && Outside(w, program)
    requires w.live == v.live + {h.code} && h.code !in v.live
    requires Matches(o, HookLayers.Attach(h)) && MayAttach(m, hooks, h, program)
    requires forall i :: 0 <= i < |pending| ==> Disjoint(h, pending[i].h)
    ensures StateOk(p, w, base, hooks, program, [o] + ops, [HookLayers.Attach(h)] + pending)
    ensures Carries(m, p, h.code, h.target, h.run)
  {
    hide TrampolineHolds, Carried, Carries, Holds, Movable, TablesOk, CopyRun, SkipFillers, Slice, StateOk,
      SameProgram, SameTrampolines, Outside, Window, Disjoint, HookHeld, MayAttach, Patchable;
    AttachedHeld(tables, m, n, p, w, program, g, h);
    AttachedState(m, p, v, w, base, hooks, program, ops, pending, o, h);
  }

  lemma WindowEnd(program: iset<int>, target: int)
    requires Window(program, target)
    ensures target + WINDOW <= SPACE && forall a :: target <= a < target + WINDOW ==> a in program
  {
  }

  /** Filling a trampoline just taken from `m` touches nothing that mattered there. */
  lemma FillStep(m: Mem, n: Mem, p: Mem, v: View, w: View, program: iset<int>, t: u32)
    requires SameProgram(m, n, program) && SameTrampolines(m, n, v.live) && OnlyTrampoline(n, p, t) && |m| == |n|
    requires Outside(w, program) && IsSlot(RegionOf(t), t) && RegionOf(t) in w.regions
    requires w.live == v.live + {t} && t !in v.live && LiveSlotsOf(w)
    ensures SameProgram(m, p, program) && SameTrampolines(m, p, v.live)
  {
    hide IsSlot, RegionOf, OnlyTrampoline, Outside;
    FillUntouched(n, p, w, program, t);
    SameProgramTrans(m, n, p, program);
    forall s | s in v.live ensures Agree(n, p, s, s + TRAMPOLINE_SIZE) {
      assert TwoSlots(w, t, s);
    }
    SameTrampolinesTrans(m, n, p, v.live);
  }

  /** Returning it again restores the heap `g` it was taken from. */
  lemma ReturnStep(m: Mem, p: Mem, q: Mem, v: View, g: View, w: View, x: View, program: iset<int>,
                   imported: (int, int) -> bool, t: u32)
    requires SameProgram(m, p, program) && SameTrampolines(m, p, v.live) && |m| == |p|
    requires AllocFrame(p, q, t, 0) && Outside(w, program) && NotImported(w, imported) && LiveSlotsOf(w)
             && t in w.live && t != 0
    requires w.live == v.live + {t} && t !in v.live && g.live == v.live && TakenFrom(g, w, t)
    requires RegionOf(t) in w.free && x == PushView(w, t)
    ensures SameProgram(m, q, program) && SameTrampolines(m, q, v.live) && x == g && Outside(x, program)
            && NotImported(x, imported)
    ensures x.regions == w.regions
  {
    hide IsSlot, RegionOf, AllocFrame, Outside, NotImported, Agree;
    assert t !in g.live;
    TakenBack(g, w, t);
    FreeKeeps(p, q, w, program, t);
    assert w.live - {t} == v.live;
    SameProgramTrans(m, p, q, program);
    SameTrampolinesTrans(m, p, q, v.live);
    SameRegionsOutside(w, x, program, imported);
  }

  /** Away from `stubs`, what removing every hook leads back to is the original program. */
  ghost predicate LeadsBack(original: Mem, base: Mem, program: iset<int>, stubs: iset<int>)
  {
    |base| == |original| && forall a :: a in program && a !in stubs && 0 <= a < |base| ==> base[a] == original[a]
  }

  ghost function StubsAfter(m: Mem, stubs: iset<int>, pending: seq<Op>): iset<int>
  {
    iset a: int | a in stubs || StubByte(m, pending, a)
  }

  /** Committing adds to the stubs only the pointer variables attached through one. */
  lemma LeadsBackKept(original: Mem, base: Mem, m: Mem, hooks: seq<Hook>, pending: seq<Op>, program: iset<int>,
                      stubs: iset<int>)
    requires LeadsBack(original, base, program, stubs)
    requires Consistent(base, m, hooks, program) && CapturedBefore(m, hooks, pending, program)
    ensures LeadsBack(original, BaseRun(base, pending), program, StubsAfter(m, stubs, pending))
  {
    hide Consistent, CapturedBefore, StubByte, BaseRun;
    var after := StubsAfter(m, stubs, pending);
    assert |base| == |m| by { BaseSize(base, m, hooks, program); }
    forall a | a in program && a !in after && 0 <= a < |base| ensures BaseRun(base, pending)[a] == original[a] {
      BaseKept(base, m, hooks, pending, program, a);
    }
  }

  lemma BaseSize(base: Mem, m: Mem, hooks: seq<Hook>, program: iset<int>)
    requires Consistent(base, m, hooks, program)
    ensures |base| == |m|
  {
  }

  /** Patching as commit needs it. */
  lemma PatchStep(m: Mem, n: Mem, pRegions: int, pRegion: int, v: View, base: Mem, hooks: seq<Hook>, program: iset<int>,
                  ops: seq<Operation>, pending: seq<Op>, original: Mem, stubs: iset<int>)
    requires HeapOk(m, pRegions, pRegion, v) && StateOk(m, v, base, hooks, program, ops, pending)
    requires n == HookLayers.Run(m, pending) && OutsideSame(m, n, program) && LeadsBack(original, base, program, stubs)
    ensures HeapOk(n, pRegions, pRegion, v)
    ensures Committing(n, v, BaseRun(base, pending), HooksRun(hooks, pending), program, ops, pending)
    ensures Settled(n, v, ops, pending, program)
    ensures LeadsBack(original, BaseRun(base, pending), program, StubsAfter(m, stubs, pending))
  {
    hide HeapOk, StateOk, HookLayers.Run, OutsideSame, LeadsBack, Committing, Settled, BaseRun, HooksRun,
      StubsAfter, Consistent, CapturedBefore;
    PatchedState(m, n, pRegions, pRegion, v, base, hooks, program, ops, pending);
    SettledAfter(m, n, pRegions, pRegion, v, base, hooks, BaseRun(base, pending), HooksRun(hooks, pending),
                 program, ops, pending);
    StateParts(m, v, base, hooks, program, ops, pending);
    LeadsBackKept(original, base, m, hooks, pending, program, stubs);
  }

  ghost predicate AllResume(pending: seq<Op>, threads: seq<u32>, resumed: seq<u32>)
  {
    |resumed| == |threads| && forall i :: 0 <= i < |resumed| ==> Resumes(pending, threads[i], resumed[i])
  }

  /** The trampoline the pointer leads to has sane fields and belongs to this detour. */
  predicate Installed(m: Mem, imported: (int, int) -> bool, ppPointer: nat, detour: u32)
  {
    var t := SkipJmp(m, imported, Read32(m, ppPointer));
    0 < At(m, t + OFF_CB_RESTORE) <= CODE_SIZE && Read32(m, t + OFF_DETOUR) == detour
  }

  /** The hook's target jumps to the detour, its pointer leads to its trampoline, and detaching through
      that pointer would find it. The code moved into the trampoline ends in a jump to the first target
      byte left in place. */
  ghost predicate HookLive(m: Mem, imported: (int, int) -> bool, h: Hook)
  {
    && FlowAt(m, h.target) == Relative(JumpKind, h.target + SIZE_OF_JMP, h.detour)
    && Read32(m, h.pointer) == h.code && SkipJmp(m, imported, h.code) == h.code
    && At(m, h.code + OFF_CB_RESTORE) == h.cb <= RESTORE_SIZE && Installed(m, imported, h.pointer, h.detour)
    && var end := h.code + At(m, h.code + OFF_CB_CODE);
    && end == h.code + |h.run.out|
    && FlowAt(m, end) == Relative(JumpKind, end + SIZE_OF_JMP, Wrap(h.target + h.cb))
  }

  /** The hook's trampoline carries the run moved out of the bytes it saved, each instruction with the
      meaning it had there, and the alignment entries of that run. */
  ghost predicate HookCarries(m: Mem, h: Hook)
  {
    && FaithfulRun(h.source, m, h.code, h.target, Mark(0, 0), h.run.marks)
    && h.saved == Slice(h.source, h.target, h.cb) && 0 < RunLength(h) <= h.cb
    && AlignField(m, h.code) == Align(h.run.marks)
  }

  lemma LiveHook(m: Mem, pRegions: int, pRegion: int, v: View, imported: (int, int) -> bool, base: Mem,
                 hooks: seq<Hook>, program: iset<int>,
                 ops: seq<Operation>, pending: seq<Op>, i: nat)
    requires HeapOk(m, pRegions, pRegion, v) && StateOk(m, v, base, hooks, program, ops, pending)
             && NotImported(v, imported)
    requires i < |hooks|
    ensures HookCarries(m, hooks[i]) && (Topmost(hooks, i) ==> HookLive(m, imported, hooks[i]))
  {
    hide HeapOk, StateOk, NotImported, FlowAt, SkipJmp, Consistent, PendingHeld, Topmost, Read32, JmpBytes, Holds,
      FaithfulRun, Align, Slice, HookHeld, CapturedBefore;
    var h := hooks[i];
    HeapFacts(m, pRegions, pRegion, v);
    StateParts(m, v, base, hooks, program, ops, pending);
    HeldFields(m, v, base, hooks, program, ops, pending, i);
    assert HookHeld(m, v, h, program);
    HeldRun(m, v, h, program);
    if Topmost(hooks, i) {
      AttachedHookIsLive(base, m, hooks, i, program);
      TrampolineNotSkipped(m, v, imported, h, program);
      JmpLands(m, h.code + At(m, h.code + OFF_CB_CODE), h.target + h.cb);
    }
  }

  lemma HeldRun(m: Mem, v: View, h: Hook, program: iset<int>)
    requires HookHeld(m, v, h, program)
    ensures HookCarries(m, h) && At(m, h.code + OFF_CB_CODE) == |h.run.out| <= 25 && h.code + TRAMPOLINE_SIZE <= |m|
    ensures Holds(m, h.code + At(m, h.code + OFF_CB_CODE),
                  JmpBytes(h.code + At(m, h.code + OFF_CB_CODE), h.target + h.cb))
  {
    hide FaithfulRun, Align, MeansSame, Read32, JmpBytes;
    CarriedMeans(m, h);
  }

  class Detours {
    const space: AddressSpace
    const heap: Heap
    const tables: Tables
    const imported: (int, int) -> bool
    ghost const program: iset<int>
    ghost const original: Mem

    var fIgnoreTooSmall: bool
    var fRetainRegions: bool
    var pendingThreadId: nat
    var pendingError: int
    var ppPendingError: nat
    var pendingThreads: seq<u32>
    var pendingOperations: seq<Operation>

    ghost var hooks: seq<Hook>
    ghost var base: Mem
    ghost var stubs: iset<int>
    ghost var pending: seq<Op>
    ghost var begun: View
    ghost var begunBytes: Mem

    ghost predicate Valid()
      reads this, heap, space
    {
      && heap.space == space && heap.Valid() && TablesOk(tables)
      && StateOk(space.b, heap.view, base, hooks, program, pendingOperations, pending)
      && LeadsBack(original, base, program, stubs)
      && NotImported(heap.view, imported)
      && if pendingThreadId == 0 then pendingOperations == [] else Undoable()
    }

    /** Abort would give every region of the beginning its free list back, and nothing of the program
        has changed since. */
    ghost predicate Undoable()
      reads this, heap, space
    {
      && Returned(FreedBy(heap.view, pendingOperations), begun)
      && (forall r :: r in begun.regions ==> r in heap.view.regions)
      && SameProgram(begunBytes, space.b, program)
    }

    constructor (space: AddressSpace, tables: Tables, imported: (int, int) -> bool, ghost program: iset<int>)
      requires space.Valid() && TablesOk(tables) && forall a :: a in program ==> 0 <= a < SPACE
      ensures Valid() && this.space == space && fresh(heap) && hooks == [] && pendingThreadId == 0
      ensures this.tables == tables && this.imported == imported && this.program == program
      ensures original == space.b == old(space.b) && stubs == iset{}
    {
      this.space := space;
      heap := new Heap(space);
      this.tables := tables;
      this.imported := imported;
      this.program := program;
      fIgnoreTooSmall, fRetainRegions := false, false;
      pendingThreadId, pendingError, ppPendingError := 0, NO_ERROR, 0;
      pendingThreads, pendingOperations := [], [];
      hooks, pending := [], [];
      original, base, stubs := space.b, space.b, iset{};
      begun, begunBytes := View([], map[], {}), space.b;
    }

    ghost predicate Begun(thread: nat)
      reads this, heap, space
    {
      && pendingThreadId == thread && pendingOperations == [] && pendingThreads == []
      && begun == heap.view && begunBytes == space.b
    }

    /** The transaction's own variables are as they were. */
    twostate predicate Untouched()
      reads this
    {
      && pendingThreadId == old(pendingThreadId) && pendingError == old(pendingError)
      && ppPendingError == old(ppPendingError)
      && pendingOperations == old(pendingOperations) && pending == old(pending) && pendingThreads == old(pendingThreads)
      && begun == old(begun) && begunBytes == old(begunBytes)
    }

    /** No byte of the program has changed since the transaction began, every region that existed then
        has the free list it had then, and the same trampolines are in use. */
    ghost predicate Undone()
      reads this, heap, space
    {
      && pendingThreadId == 0 && pendingOperations == [] && pendingThreads == []
      && SameProgram(begunBytes, space.b, program) && Returned(heap.view, begun)
    }

    /** DetourTransactionBegin; `writable` is what making the regions writable returned. */
    method TransactionBegin(thread: nat, writable: int) returns (error: int)
      requires Valid() && thread != 0
      modifies this
      ensures Valid() && hooks == old(hooks) && base == old(base) && stubs == old(stubs)
      ensures old(pendingThreadId) != 0 ==> error == ERROR_INVALID_OPERATION && Untouched()
      ensures old(pendingThreadId) == 0 ==> Begun(thread) && error == writable == pendingError
    {
      hide StateOk, HeapOk, NotImported, TablesOk;
      if pendingThreadId != 0 {
        return ERROR_INVALID_OPERATION;
      }
      pendingThreadId := thread;
      pendingOperations, pendingThreads := [], [];
      ppPendingError := 0;
      pendingError := writable;
      begun, begunBytes := heap.view, space.b;
      NothingPending(space.b, heap.pRegions, heap.pRegion, heap.view, base, hooks, program, pending);
      return pendingError;
    }

    /** DetourUpdateThread: the thread whose instruction pointer is `eip` is suspended, unless it is
        the caller's own; `suspendError` is the error of suspending it. Outside a transaction the thread
        is listed all the same, and forgotten by the next begin. */
    method UpdateThread(own: bool, eip: u32, haveMemory: bool, suspendError: int) returns (error: int)
      requires Valid()
      modifies this`pendingThreads, this`pendingError, this`ppPendingError
      ensures Valid()
      ensures error == if old(pendingError) != NO_ERROR then old(pendingError) else if own then NO_ERROR
                       else if !haveMemory then ERROR_NOT_ENOUGH_MEMORY else suspendError
      ensures pendingThreads == (if old(pendingError) == NO_ERROR == error && !own then [eip] else [])
                                + old(pendingThreads)
      ensures pendingError == error || own
    {
      hide StateOk, HeapOk, NotImported, TablesOk;
      if pendingError != NO_ERROR {
        return pendingError;
      }
      if own {
        return NO_ERROR;
      }
      error := if !haveMemory then ERROR_NOT_ENOUGH_MEMORY else suspendError;
      if error != NO_ERROR {
        pendingError, ppPendingError := error, 0;
        return;
      }
      pendingThreads := [eip] + pendingThreads;
    }

    /** detour_skip_jmp */
    function CodeFromPointer(p: u32): u32
      reads space
    {
      SkipJmp(space.b, imported, p)
    }

    /** The call gets as far as looking for a trampoline. */
    ghost predicate AttachReaches(thread: nat, ppPointer: nat, pDetour: u32, haveMemory: bool)
      reads this, space
    {
      && pDetour != 0 && pendingThreadId == thread && pendingError == NO_ERROR
      && ppPointer != 0 && Read32(space.b, ppPointer) != 0
      && CodeFromPointer(Read32(space.b, ppPointer)) != CodeFromPointer(pDetour)
      && haveMemory
    }

    ghost function AttachTo(ppPointer: nat, newRegion: u32): int
      reads this, heap, space
    {
      NextTrampoline(space.b, heap.view.regions, heap.pRegion, CodeFromPointer(Read32(space.b, ppPointer)), newRegion)
    }

    /** The hook an attach would make. */
    ghost function AttachHook(ppPointer: nat, pDetour: u32, newRegion: u32): Hook
      reads this, heap, space
    {
      AttachHookOf(space.b, tables, ppPointer, CodeFromPointer(Read32(space.b, ppPointer)),
                   CodeFromPointer(pDetour), Wrap(AttachTo(ppPointer, newRegion)))
    }

    /** What attaching asks of its caller: code around the target that can be moved, and no overlap
        with another operation of the transaction. */
    ghost predicate Attachable(ppPointer: nat, pDetour: u32, newRegion: u32)
      reads this, heap, space
    {
      AttachableAt(space.b, hooks, pending, program, tables, AttachTo(ppPointer, newRegion),
                   AttachHook(ppPointer, pDetour, newRegion))
    }

    ghost function AttachError(thread: nat, ppPointer: nat, pDetour: u32, haveMemory: bool, newRegion: u32,
                               protectError: int): int
      reads this, heap, space
    {
      if pDetour == 0 then ERROR_INVALID_PARAMETER
      else if pendingThreadId != thread then ERROR_INVALID_OPERATION
      else if pendingError != NO_ERROR then pendingError
      else if ppPointer == 0 || Read32(space.b, ppPointer) == 0 then ERROR_INVALID_HANDLE
      else if CodeFromPointer(Read32(space.b, ppPointer)) == CodeFromPointer(pDetour) then NO_ERROR
      else if !haveMemory || AttachTo(ppPointer, newRegion) == 0 then ERROR_NOT_ENOUGH_MEMORY
      else if AttachHook(ppPointer, pDetour, newRegion).cb < SIZE_OF_JMP then ERROR_INVALID_BLOCK
      else protectError
    }

    /** Errors of the arguments themselves leave no trace in the transaction. */
    ghost predicate AttachRefused(thread: nat, ppPointer: nat, pDetour: u32)
      reads this
    {
      pDetour == 0 || pendingThreadId != thread || pendingError != NO_ERROR || ppPointer == 0
    }

    /** DetourAttachEx. `haveMemory` says whether memory for the operation was found, `newRegion` what a
        search for a new region returns, `protectError` the error of unprotecting the target. */
    method Attach(thread: nat, ppPointer: nat, pDetour: u32, haveMemory: bool, newRegion: u32, protectError: int)
      returns (error: int)
      requires Valid() && thread != 0
      requires newRegion != 0 ==> FreshPlace(heap.view, program, imported, newRegion)
      requires AttachReaches(thread, ppPointer, pDetour, haveMemory) ==> Attachable(ppPointer, pDetour, newRegion)
      modifies this, heap, space
      ensures Valid() && hooks == old(hooks) && base == old(base) && stubs == old(stubs)
              && SameProgram(old(space.b), space.b, program)
      ensures pendingThreadId == old(pendingThreadId) && pendingThreads == old(pendingThreads)
      ensures fIgnoreTooSmall == old(fIgnoreTooSmall) && fRetainRegions == old(fRetainRegions)
      ensures begun == old(begun) && begunBytes == old(begunBytes)
      ensures error == old(AttachError(thread, ppPointer, pDetour, haveMemory, newRegion, protectError))
      ensures if old(AttachReaches(thread, ppPointer, pDetour, haveMemory)) && error == NO_ERROR then
                var h := old(AttachHook(ppPointer, pDetour, newRegion));
                && pendingOperations == [Operation(false, ppPointer, h.target, h.code)] + old(pendingOperations)
                && pending == [HookLayers.Attach(h)] + old(pending)
                && h.code in heap.view.live && h.code !in old(heap.view.live)
                && Carries(old(space.b), space.b, h.code, h.target, h.run)
                && pendingError == NO_ERROR && ppPendingError == old(ppPendingError)
              else
                && pendingOperations == old(pendingOperations) && pending == old(pending)
                && heap.view.live == old(heap.view.live)
                && ppPendingError ==
                   (if old(AttachRefused(thread, ppPointer, pDetour)) then old(ppPendingError) else ppPointer)
      ensures pendingError == old(pendingError)
              || (pendingError == error && !old(AttachRefused(thread, ppPointer, pDetour)))
      ensures !old(AttachRefused(thread, ppPointer, pDetour)) ==>
                pendingError == error || (fIgnoreTooSmall && error == ERROR_INVALID_BLOCK && pendingError == NO_ERROR)
    {
      hide StateOk, HeapOk, NotImported, TablesOk, FreshPlace, SkipJmp, Read32, NextTrampoline, MayAttach, Movable,
        Outside, Patchable, Carries, RunAt;
      if pDetour == 0 {
        return ERROR_INVALID_PARAMETER;
      }
      if pendingThreadId != thread {
        return ERROR_INVALID_OPERATION;
      }
      if pendingError != NO_ERROR {
        return pendingError;
      }
      if ppPointer == 0 {
        return ERROR_INVALID_HANDLE;
      }
      if Read32(space.b, ppPointer) == 0 {
        pendingError, ppPendingError := ERROR_INVALID_HANDLE, ppPointer;
        return ERROR_INVALID_HANDLE;
      }
      var pbTarget := CodeFromPointer(Read32(space.b, ppPointer));
      var pbDetour := CodeFromPointer(pDetour);
      if pbDetour == pbTarget {
        if !fIgnoreTooSmall {
          pendingError := NO_ERROR;
        }
        ppPendingError := ppPointer;
        return NO_ERROR;
      }
      if !haveMemory {
        pendingError, ppPendingError := ERROR_NOT_ENOUGH_MEMORY, ppPointer;
        return ERROR_NOT_ENOUGH_MEMORY;
      }
      ghost var to, h := AttachTo(ppPointer, newRegion), AttachHook(ppPointer, pDetour, newRegion);
      error := AttachTarget(ppPointer, pbTarget, pbDetour, newRegion, protectError, to, h);
    }

    /** The rest of an attach, once target and detour are known: trampoline, copy, protection, queue. `to`
        is the trampoline an allocation will give, `h` the hook to be made. */
    method AttachTarget(ppPointer: nat, pbTarget: u32, pbDetour: u32, newRegion: u32, protectError: int,
                        ghost to: int, ghost h: Hook)
      returns (error: int)
      requires Valid() && pendingThreadId != 0 && pendingError == NO_ERROR
      requires newRegion != 0 ==> FreshPlace(heap.view, program, imported, newRegion)
      requires to == NextTrampoline(space.b, heap.view.regions, heap.pRegion, pbTarget, newRegion)
      requires h == AttachHookOf(space.b, tables, ppPointer, pbTarget, pbDetour, Wrap(to))
      requires AttachableAt(space.b, hooks, pending, program, tables, to, h)
      modifies this`pendingOperations, this`pending, this`pendingError, this`ppPendingError, heap, space
      ensures Valid() && SameProgram(old(space.b), space.b, program)
      ensures error == if to == 0 then ERROR_NOT_ENOUGH_MEMORY else if h.cb < SIZE_OF_JMP then ERROR_INVALID_BLOCK
                       else protectError
      ensures error == NO_ERROR ==>
                && pendingOperations == [Operation(false, ppPointer, h.target, h.code)] + old(pendingOperations)
                && pending == [HookLayers.Attach(h)] + old(pending)
                && h.code in heap.view.live && h.code !in old(heap.view.live)
                && Carries(old(space.b), space.b, h.code, h.target, h.run)
                && pendingError == NO_ERROR && ppPendingError == old(ppPendingError)
      ensures error != NO_ERROR ==>
                && pendingOperations == old(pendingOperations) && pending == old(pending)
                && heap.view.live == old(heap.view.live) && ppPendingError == ppPointer
                && pendingError == if fIgnoreTooSmall && h.cb < SIZE_OF_JMP && to != 0 then NO_ERROR else error
    {
      hide StateOk, HeapOk, NotImported, TablesOk, FreshPlace, SkipJmp, Read32, NextTrampoline, MayAttach, Movable,
        CopyRun,
        Outside, Carries, RunAt, AllocFrame, Choice, JmpBounds, Grown, PopView, PushView, FreedBy, Returned,
        Breakpoints,
        Pushed, IsSlot, RegionOf, Slice, Carried, Holds, LeadsBack, Disjoint, HookOk, SameProgram, SameTrampolines,
        HookHeld, TrampolineHolds, SkipFillers, OnlyTrampoline, Window, LiveSlotsOf;
      ghost var m, v := space.b, heap.view;
      ghost var pRegions, pRegion := heap.pRegions, heap.pRegion;
      ghost var lo, hi := JmpBounds(m, pbTarget).0, JmpBounds(m, pbTarget).1;
      ghost var fromNew := Choice(m, v.regions, pRegion, lo, hi) == 0 && newRegion != 0;
      ghost var g := if fromNew then Grown(v, newRegion) else v;
      if newRegion != 0 { FreshFacts(v, program, imported, newRegion, begun); }
      var t := heap.AllocTrampoline(pbTarget, newRegion);
      ghost var n, w := space.b, heap.view;
      AfterAlloc(m, n, pRegions, pRegion, heap.pRegions, heap.pRegion, v, g, w, t, newRegion, fromNew, program,
                 imported,
                 base, hooks, pendingOperations, pending, begun);
      if t == 0 {
        SameProgramTrans(begunBytes, m, n, program);
        pendingError, ppPendingError := ERROR_NOT_ENOUGH_MEMORY, ppPointer;
        return ERROR_NOT_ENOUGH_MEMORY;
      }
      ghost var run := RunAt(tables, m, t, pbTarget);
      assert t == to == h.code;
      WindowEnd(program, pbTarget);
      FillReady(tables, m, n, w, program, t, pbTarget);
      PatchableBounds(tables, m, t, pbTarget, run);
      var cbTarget := FillTrampoline(space, tables, t, pbTarget, pbDetour, run);
      ghost var p := space.b;
      AfterFill(m, n, p, heap.pRegions, heap.pRegion, v, w, program, t);
      if cbTarget < SIZE_OF_JMP || protectError != NO_ERROR {
        error := if cbTarget < SIZE_OF_JMP then ERROR_INVALID_BLOCK else protectError;
        heap.FreeTrampoline(t);
        AfterReturn(m, p, space.b, v, g, w, heap.view, program, imported, t, base, hooks, pendingOperations, pending);
        SameProgramTrans(begunBytes, m, space.b, program);
        if cbTarget >= SIZE_OF_JMP || !fIgnoreTooSmall {
          pendingError := error;
        }
        ppPendingError := ppPointer;
        return;
      }
      SameProgramTrans(begunBytes, m, p, program);
      var o := Operation(false, ppPointer, pbTarget, t);
      QueueStep(tables, m, n, p, v, w, base, hooks, program, pendingOperations, pending, o,
                HookMade(n, ppPointer, pbTarget, cbTarget, t, pbDetour, run), h);
      AttachedUndo(v, g, w, pendingOperations, begun, o, newRegion);
      pendingOperations := [o] + pendingOperations;
      pending := [HookLayers.Attach(h)] + pending;
      error := NO_ERROR;
    }

    // ------------------------------------------------------------------------------- detach

    predicate LooksInstalled(ppPointer: nat, pDetour: u32)
      reads space
    {
      Installed(space.b, imported, ppPointer, CodeFromPointer(pDetour))
    }

    ghost predicate DetachReaches(thread: nat, ppPointer: nat, pDetour: u32, haveMemory: bool)
      reads this, space
    {
      && pendingThreadId == thread && pendingError == NO_ERROR && pDetour != 0
      && ppPointer != 0 && Read32(space.b, ppPointer) != 0 && haveMemory
    }

    /** What looks like a hook attached through this pointer is hook `i`, it lies under no later hook,
        and no operation of the transaction overlaps it. */
    ghost predicate Detachable(ppPointer: nat, pDetour: u32, i: nat)
      reads this, space
    {
      LooksInstalled(ppPointer, pDetour) ==>
        && i < |hooks| && Topmost(hooks, i) && hooks[i].pointer == ppPointer
        && hooks[i].code == CodeFromPointer(Read32(space.b, ppPointer))
        && forall j :: 0 <= j < |pending| ==> Disjoint(hooks[i], pending[j].h)
    }

    ghost function DetachError(thread: nat, ppPointer: nat, pDetour: u32, haveMemory: bool, protectError: int): int
      reads this, space
    {
      if pendingThreadId != thread then ERROR_INVALID_OPERATION
      else if pendingError != NO_ERROR then pendingError
      else if pDetour == 0 then ERROR_INVALID_PARAMETER
      else if ppPointer == 0 || Read32(space.b, ppPointer) == 0 then ERROR_INVALID_HANDLE
      else if !haveMemory then ERROR_NOT_ENOUGH_MEMORY
      else if !LooksInstalled(ppPointer, pDetour) then ERROR_INVALID_BLOCK
      else protectError
    }

    /** DetourDetach: nothing is removed before commit. */
    method Detach(thread: nat, ppPointer: nat, pDetour: u32, haveMemory: bool, protectError: int, ghost i: nat)
      returns (error: int)
      requires Valid() && thread != 0
      requires DetachReaches(thread, ppPointer, pDetour, haveMemory) ==> Detachable(ppPointer, pDetour, i)
      modifies this`pendingOperations, this`pending, this`pendingError, this`ppPendingError
      ensures Valid()
      ensures error == old(DetachError(thread, ppPointer, pDetour, haveMemory, protectError))
      ensures if old(DetachReaches(thread, ppPointer, pDetour, haveMemory)) && error == NO_ERROR then
                && i < |hooks| && hooks[i].pointer == ppPointer
                && pendingOperations == [Operation(true, ppPointer, hooks[i].target, hooks[i].code)]
                                        + old(pendingOperations)
                && pending == [HookLayers.Detach(hooks[i])] + old(pending)
                && pendingError == NO_ERROR && ppPendingError == old(ppPendingError)
              else
                && pendingOperations == old(pendingOperations) && pending == old(pending)
                && ppPendingError ==
                   (if old(AttachRefused(thread, ppPointer, pDetour)) then old(ppPendingError) else ppPointer)
      ensures old(AttachRefused(thread, ppPointer, pDetour)) ==> pendingError == old(pendingError)
      ensures !old(AttachRefused(thread, ppPointer, pDetour)) ==>
                pendingError == if fIgnoreTooSmall && haveMemory && Read32(space.b, ppPointer) != 0
                                   && !LooksInstalled(ppPointer, pDetour) then NO_ERROR else error
    {
      hide StateOk, HeapOk, NotImported, TablesOk, SkipJmp, Read32, FreedBy, Returned, SameProgram, Topmost,
        HookHeld, TrampolineHolds, Disjoint, HookOk;
      if pendingThreadId != thread {
        return ERROR_INVALID_OPERATION;
      }
      if pendingError != NO_ERROR {
        return pendingError;
      }
      if pDetour == 0 {
        return ERROR_INVALID_PARAMETER;
      }
      if ppPointer == 0 {
        return ERROR_INVALID_HANDLE;
      }
      if Read32(space.b, ppPointer) == 0 {
        pendingError, ppPendingError := ERROR_INVALID_HANDLE, ppPointer;
        return ERROR_INVALID_HANDLE;
      }
      if !haveMemory {
        pendingError, ppPendingError := ERROR_NOT_ENOUGH_MEMORY, ppPointer;
        return ERROR_NOT_ENOUGH_MEMORY;
      }
      var pTrampoline := CodeFromPointer(Read32(space.b, ppPointer));
      var detour := CodeFromPointer(pDetour);
      var cbTarget := At(space.b, pTrampoline + OFF_CB_RESTORE);
      var pbTarget := Wrap(Read32(space.b, pTrampoline + OFF_REMAIN) - cbTarget);
      if cbTarget == 0 || cbTarget > CODE_SIZE || Read32(space.b, pTrampoline + OFF_DETOUR) != detour {
        if !fIgnoreTooSmall {
          pendingError := ERROR_INVALID_BLOCK;
        }
        ppPendingError := ppPointer;
        return ERROR_INVALID_BLOCK;
      }
      if protectError != NO_ERROR {
        pendingError, ppPendingError := protectError, ppPointer;
        return protectError;
      }
      HeldFields(space.b, heap.view, base, hooks, program, pendingOperations, pending, i);
      var o := Operation(true, ppPointer, pbTarget, pTrampoline);
      DetachedState(space.b, heap.view, base, hooks, program, pendingOperations, pending, o, i);
      FreedDetach(heap.view, pendingOperations, o);
      pendingOperations := [o] + pendingOperations;
      pending := [HookLayers.Detach(hooks[i])] + pending;
      error := NO_ERROR;
    }

    // -------------------------------------------------------------------------------- abort

    /** DetourTransactionAbort: the trampolines of pending attaches go back, latest first. */
    method TransactionAbort(thread: nat) returns (error: int)
      requires Valid() && thread != 0
      modifies this`pendingOperations, this`pending, this`pendingThreads, this`pendingThreadId, heap, space
      ensures Valid()
      ensures old(pendingThreadId) != thread ==>
                error == ERROR_INVALID_OPERATION && Untouched()
                && space.b == old(space.b) && heap.view == old(heap.view)
      ensures old(pendingThreadId) == thread ==> error == NO_ERROR && Undone()
      ensures hooks == old(hooks) && base == old(base) && SameProgram(old(space.b), space.b, program)
    {
      hide StateOk, HeapOk, NotImported, TablesOk, FreedBy, Returned, SameProgram, FreedOne, PushView, Pushed,
        Outside, PendingHeld, HooksHeld,
        Consistent, AllocFrame, LiveSlotsOf, Codes, AttachCodes, CapturedBefore, PairwiseDisjoint, OpsFit,
        DistinctCodes, Live, RegionOf;
      ghost var m, v, ops := space.b, heap.view, pendingOperations;
      SameProgramRefl(m, program);
      if pendingThreadId != thread {
        return ERROR_INVALID_OPERATION;
      }
      while pendingOperations != []
        invariant Valid() && pendingThreadId == thread && hooks == old(hooks) && base == old(base)
        invariant SameProgram(m, space.b, program)
        invariant FreedBy(heap.view, pendingOperations) == FreedBy(v, ops) && heap.view.regions == v.regions
        decreases |pendingOperations|
      {
        ghost var n, w := space.b, heap.view;
        var o := pendingOperations[0];
        AbortHead(n, heap.pRegions, heap.pRegion, w, base, hooks, program, pendingOperations, pending);
        if !o.fIsRemove {
          heap.FreeTrampoline(o.pTrampoline);
          FreeKeeps(n, space.b, w, program, o.pTrampoline);
          PushedView(w, heap.view, program, imported, o.pTrampoline);
          SameProgramTrans(m, n, space.b, program);
          SameProgramTrans(begunBytes, n, space.b, program);
        }
        SameAll(space.b, heap.view.live, program);
        PopOperation(n, space.b, w, heap.view, base, hooks, program, pendingOperations, pending);
        pendingOperations, pending := pendingOperations[1..], pending[1..];
      }
      FreedNone(heap.view);
      pendingThreads, pendingThreadId := [], 0;
      error := NO_ERROR;
    }

    // -------------------------------------------------------------------------------- commit

    /** Inserts the jump of one pending attach, or puts the bytes of one detach back. */
    method ApplyOperation(o: Operation, ghost op: Op)
      requires |space.b| == SPACE && Matches(o, op) && TrampolineHolds(space.b, op.h) && HookOk(op.h, SPACE)
      modifies space
      ensures space.b == Apply(old(space.b), op)
    {
      hide JmpBytes, Read32, Bytes32;
      ghost var m, h := space.b, op.h;
      var t := o.pTrampoline;
      if o.fIsRemove {
        var cbRestore := At(space.b, t + OFF_CB_RESTORE);
        assert Slice(m, t + OFF_RESTORE, cbRestore) == h.saved;
        space.b := Store(space.b, o.pbTarget, Slice(space.b, t + OFF_RESTORE, cbRestore));
        space.b := Store32(space.b, o.ppbPointer, o.pbTarget);
      } else {
        var pbDetour, pbRemain := Read32(space.b, t + OFF_DETOUR), Read32(space.b, t + OFF_REMAIN);
        space.b := Store(space.b, o.pbTarget, JmpBytes(o.pbTarget, pbDetour));
        GenBrk(space, o.pbTarget + SIZE_OF_JMP, pbRemain);
        StoreAdjacent(m, h.target, JmpBytes(h.target, h.detour), Fill(h.cb - SIZE_OF_JMP, 0xcc));
        space.b := Store32(space.b, o.ppbPointer, t);
      }
    }

    /** First pass: patch and restore targets, latest request first. */
    method ApplyOperations()
      requires Valid()
      modifies space
      ensures space.b == HookLayers.Run(old(space.b), pending) && OutsideSame(old(space.b), space.b, program)
    {
      hide StateOk, HeapOk, NotImported, TablesOk, FreedBy, Returned, SameProgram, Apply, HookLayers.Run, HookOk,
        HookHeld, TrampolineHolds, PendingHeld, InProgram, OutsideSame, Matches;
      ghost var m, v := space.b, heap.view;
      HeapFacts(m, heap.pRegions, heap.pRegion, v);
      StateParts(m, v, base, hooks, program, pendingOperations, pending);
      PendingInProgram(base, m, hooks, pending, program);
      PendingSize(m, v, pendingOperations, pending, program);
      OutsideRefl(m, program);
      assert pending[0..] == pending;
      var k := 0;
      while k < |pendingOperations|
        invariant 0 <= k <= |pendingOperations| && |space.b| == SPACE
        invariant HookLayers.Run(space.b, pending[k..]) == HookLayers.Run(m, pending)
        invariant OutsideSame(m, space.b, program)
      {
        ghost var n := space.b;
        OperationReady(m, n, heap.pRegions, heap.pRegion, v, program, pendingOperations, pending, k);
        ApplyOperation(pendingOperations[k], pending[k]);
        RunStepForm(n, pending, k);
        AppliedOutside(n, pending[k], program);
        OutsideStep(m, n, space.b, program);
        k := k + 1;
      }
      RunEnd(space.b, pending);
    }

    /** Second pass: where every suspended thread resumes. */
    method MoveThreads() returns (resumed: seq<u32>)
      requires Settled(space.b, heap.view, pendingOperations, pending, program)
      ensures resumed == FixAll(space.b, pendingOperations, pendingThreads)
      ensures AllResume(pending, pendingThreads, resumed)
    {
      hide FixEip, FixOne, Settled, Resumes;
      resumed := [];
      while |resumed| < |pendingThreads|
        invariant |resumed| <= |pendingThreads|
        invariant forall i :: 0 <= i < |resumed| ==> resumed[i] == FixEip(space.b, pendingOperations, pendingThreads[i])
      {
        var eip := MoveThread(pendingThreads[|resumed|]);
        resumed := resumed + [eip];
      }
      forall i | 0 <= i < |resumed| ensures Resumes(pending, pendingThreads[i], resumed[i]) {
        ThreadResumes(space.b, heap.view, pendingOperations, pending, program, pendingThreads[i]);
      }
    }

    method MoveThread(start: u32) returns (eip: u32)
      ensures eip == FixEip(space.b, pendingOperations, start)
    {
      hide FixOne;
      eip := start;
      var k := 0;
      assert pendingOperations[0..] == pendingOperations;
      while k < |pendingOperations|
        invariant 0 <= k <= |pendingOperations|
        invariant FixEip(space.b, pendingOperations[k..], eip) == FixEip(space.b, pendingOperations, start)
      {
        assert pendingOperations[k..][1..] == pendingOperations[k + 1..];
        eip := FixOne(space.b, pendingOperations[k], eip);
        k := k + 1;
      }
    }

    /** Third pass: the trampolines of removed hooks go back and the operations are deleted. */
    method ReturnTrampolines() returns (freed: bool)
      requires heap.space == space && heap.Valid() && NotImported(heap.view, imported)
      requires Committing(space.b, heap.view, base, hooks, program, pendingOperations, pending)
      modifies this`pendingOperations, this`pending, heap, space
      ensures heap.Valid() && NotImported(heap.view, imported) && pendingOperations == [] && pending == []
      ensures StateOk(space.b, heap.view, base, hooks, program, [], []) && Live(heap.view, Codes(hooks))
      ensures SameProgram(old(space.b), space.b, program) && heap.view.regions == old(heap.view.regions)
      ensures freed <==> exists o :: o in old(pendingOperations) && o.fIsRemove
    {
      hide Committing, StateOk, HeapOk, NotImported, SameProgram, FreedOne, PushView, Pushed, Outside, AllocFrame,
        LiveSlotsOf, Live, Codes, RegionOf;
      ghost var m, ops := space.b, pendingOperations;
      ghost var done: seq<Operation> := [];
      SameProgramRefl(m, program);
      freed := false;
      while pendingOperations != []
        invariant heap.Valid() && NotImported(heap.view, imported) && heap.view.regions == old(heap.view.regions)
        invariant Committing(space.b, heap.view, base, hooks, program, pendingOperations, pending)
        invariant SameProgram(m, space.b, program)
        invariant ops == done + pendingOperations && (freed <==> exists o :: o in done && o.fIsRemove)
        decreases |pendingOperations|
      {
        ghost var n, w := space.b, heap.view;
        var o := pendingOperations[0];
        CommitHead(n, heap.pRegions, heap.pRegion, w, base, hooks, program, pendingOperations, pending);
        if o.fIsRemove {
          heap.FreeTrampoline(o.pTrampoline);
          freed := true;
          FreeKeeps(n, space.b, w, program, o.pTrampoline);
          PushedView(w, heap.view, program, imported, o.pTrampoline);
          SameProgramTrans(m, n, space.b, program);
        }
        SameAll(space.b, heap.view.live, program);
        DoneOperation(n, space.b, w, heap.view, base, hooks, program, pendingOperations, pending);
        done := done + [o];
        pendingOperations, pending := pendingOperations[1..], pending[1..];
      }
      CommitNone(space.b, heap.view, base, hooks, program, pending);
      CommittedState(space.b, heap.view, base, hooks, program);
    }

    /** Lets go of regions without a trampoline in use. */
    method Sweep()
      requires heap.space == space && heap.Valid() && NotImported(heap.view, imported)
      requires StateOk(space.b, heap.view, base, hooks, program, [], []) && Live(heap.view, Codes(hooks))
      modifies heap, space
      ensures heap.Valid() && NotImported(heap.view, imported)
      ensures StateOk(space.b, heap.view, base, hooks, program, [], []) && Live(heap.view, Codes(hooks))
      ensures SameProgram(old(space.b), space.b, program)
      ensures heap.view.regions == Kept(old(heap.view), old(heap.view.regions)) && heap.view.live == old(heap.view.live)
      ensures forall r :: r in heap.view.regions <==> r in old(heap.view.regions) && LiveIn(heap.view, r) != {}
    {
      hide StateOk, HeapOk, NotImported, SameProgram, Outside, LiveSlotsOf, Live, LiveIn, Codes, Kept, InNextField,
        OnlyLinks, LiveOutside, RegionOf, HooksHeld, Consistent, SameTrampolines, RegionPlace;
      ghost var m, v := space.b, heap.view;
      HeapFacts(m, heap.pRegions, heap.pRegion, v);
      StateParts(m, v, base, hooks, program, [], []);
      HookSizes(base, m, hooks, program);
      HookedOutside(m, v, hooks, program);
      heap.FreeUnusedTrampolineRegions();
      ghost var n, w := space.b, heap.view;
      HeapFacts(n, heap.pRegions, heap.pRegion, w);
      KeptMembers(v, v.regions);
      forall r: int ensures LiveIn(v, r) == LiveIn(w, r) { SameLive(v, w, r); }
      RegionPlaces(m, old(heap.pRegions), old(heap.pRegion), v);
      SweepKeeps(m, n, v, w, program);
      StateKept(m, n, v, w, base, hooks, program, [], []);
      KeptNotImported(v, w, imported);
      SameLiveSet(v, w, Codes(hooks));
    }

    /** What a successful commit does: every operation takes effect, in the order from the latest
        request to the first; every suspended thread resumes where its instruction now is; the
        trampolines in use are those of the attached hooks. */
    twostate predicate Committed(resumed: seq<u32>)
      reads this, heap, space
    {
      && hooks == HooksRun(old(hooks), old(pending)) && base == BaseRun(old(base), old(pending))
      && stubs == StubsAfter(old(space.b), old(stubs), old(pending))
      && SameProgram(HookLayers.Run(old(space.b), old(pending)), space.b, program)
      && resumed == FixAll(HookLayers.Run(old(space.b), old(pending)), old(pendingOperations), old(pendingThreads))
      && AllResume(old(pending), old(pendingThreads), resumed)
      && Live(heap.view, Codes(hooks))
      && pendingThreadId == 0
    }

    /** DetourTransactionCommitEx. `resumed` are the instruction pointers of the suspended threads when
        they are resumed. */
    method TransactionCommitEx(thread: nat) returns (error: int, failedPointer: nat, resumed: seq<u32>)
      requires Valid() && thread != 0
      modifies this, heap, space
      ensures Valid() && failedPointer == old(ppPendingError)
      ensures old(pendingThreadId) != thread ==>
                error == ERROR_INVALID_OPERATION && Untouched() && space.b == old(space.b) && hooks == old(hooks)
                && base == old(base) && stubs == old(stubs)
      ensures old(pendingThreadId) == thread && old(pendingError) != NO_ERROR ==>
                error == old(pendingError) && Undone() && hooks == old(hooks) && base == old(base)
                && stubs == old(stubs) && resumed == old(pendingThreads)
      ensures old(pendingThreadId) == thread && old(pendingError) == NO_ERROR ==>
                error == NO_ERROR && Committed(resumed)
      ensures old(pendingThreadId) == thread && old(pendingError) == NO_ERROR ==>
                heap.view.regions == old(heap.view.regions)
                || (!fRetainRegions && (exists o :: o in old(pendingOperations) && o.fIsRemove)
                    && forall r :: r in heap.view.regions <==>
                                   r in old(heap.view.regions) && LiveIn(heap.view, r) != {})
      ensures fRetainRegions == old(fRetainRegions)
    {
      hide StateOk, HeapOk, NotImported, TablesOk, FreedBy, Returned, SameProgram, HookLayers.Run, HooksRun,
        BaseRun, OutsideSame, FixAll, Committing, Live, LiveIn, Codes,
        LeadsBack, StubsAfter, AllResume, Settled;
      failedPointer, resumed := ppPendingError, [];
      if pendingThreadId != thread {
        error := ERROR_INVALID_OPERATION;
        return;
      }
      if pendingError != NO_ERROR {
        resumed := pendingThreads;
        var aborted := TransactionAbort(thread);
        error := pendingError;
        return;
      }
      ghost var m := space.b;
      ApplyOperations();
      ghost var n := space.b;
      PatchStep(m, n, heap.pRegions, heap.pRegion, heap.view, base, hooks, program, pendingOperations, pending,
                original, stubs);
      base, hooks, stubs := BaseRun(base, pending), HooksRun(hooks, pending), StubsAfter(m, stubs, pending);
      resumed := MoveThreads();
      var freed := ReturnTrampolines();
      ghost var p := space.b;
      SameProgramRefl(p, program);
      if freed && !fRetainRegions {
        Sweep();
      }
      SameProgramTrans(n, p, space.b, program);
      pendingThreads, pendingThreadId := [], 0;
      error := pendingError;
    }

    // --------------------------------------------------------------- what every history keeps

    /** Once nothing is attached any more, every byte of the program is what it was when the first
        transaction began, but for pointer variables that were attached through a jump stub. */
    lemma NothingAttached()
      requires Valid() && hooks == []
      ensures |space.b| == |original| && forall a :: a in program && a !in stubs && 0 <= a < |space.b| ==>
                                                       space.b[a] == original[a]
    {
      hide HeapOk, NotImported, TablesOk, PendingHeld, CapturedBefore, Outside, FreedBy;
      StateParts(space.b, heap.view, base, hooks, program, pendingOperations, pending);
    }

    /** In every reachable state an attached hook carries its run, and it is live unless a later hook
        overlaps it. */
    lemma AttachedHook(i: nat)
      requires Valid() && i < |hooks|
      ensures HookCarries(space.b, hooks[i])
      ensures Topmost(hooks, i) ==> HookLive(space.b, imported, hooks[i])
    {
      hide StateOk, HeapOk, NotImported, TablesOk, FreedBy, Topmost, HookCarries, HookLive, LeadsBack;
      LiveHook(space.b, heap.pRegions, heap.pRegion, heap.view, imported, base, hooks, program, pendingOperations,
               pending, i);
    }
  }

  lemma HookSizes(base: Mem, m: Mem, hooks: seq<Hook>, program: iset<int>)
    requires Consistent(base, m, hooks, program)
    ensures forall i :: 0 <= i < |hooks| ==> hooks[i].cb >= SIZE_OF_JMP
  {
    hide SavesBelow, Layer, Covers;
  }

  lemma RegionPlaces(m: Mem, pRegions: int, pRegion: int, v: View)
    requires HeapOk(m, pRegions, pRegion, v)
    ensures forall r :: r in v.regions ==> RegionPlace(r)
  {
    HeapParts(m, pRegions, pRegion, v);
  }

  lemma SameLiveSet(v: View, w: View, codes: set<int>)
    requires Live(v, codes) && w.live == v.live
    ensures Live(w, codes)
  {
  }

  lemma KeptNotImported(v: View, w: View, imported: (int, int) -> bool)
    requires NotImported(v, imported) && forall r :: r in w.regions ==> r in v.regions
    ensures NotImported(w, imported)
  {
    hide RegionOf;
  }

  /** The view after a trampoline was returned. */
  lemma PushedView(v: View, w: View, program: iset<int>, imported: (int, int) -> bool, t: u32)
    requires RegionOf(t) in v.free && w == PushView(v, t) && Outside(v, program) && NotImported(v, imported)
    ensures w == FreedOne(v, t) && w.live == v.live - {t} && w.regions == v.regions
    ensures Outside(w, program) && NotImported(w, imported)
  {
    hide RegionOf;
    SameRegionsOutside(v, w, program, imported);
  }

  lemma FreedNone(v: View)
    ensures FreedBy(v, []) == v
  {
  }

  lemma SameAll(m: Mem, live: set<u32>, program: iset<int>)
    ensures SameTrampolines(m, m, live) && SameProgram(m, m, program)
  {
  }

  lemma AbortHead(m: Mem, pRegions: int, pRegion: int, v: View, base: Mem, hooks: seq<Hook>, program: iset<int>,
                  ops: seq<Operation>, pending: seq<Op>)
    requires HeapOk(m, pRegions, pRegion, v) && StateOk(m, v, base, hooks, program, ops, pending) && ops != []
    ensures ops[0].pTrampoline in v.live && ops[0].pTrampoline != 0 && LiveSlotsOf(v) && Outside(v, program)
    ensures FreedBy(v, ops) == FreedBy(if ops[0].fIsRemove then v else FreedOne(v, ops[0].pTrampoline), ops[1..])
    ensures |pending| == |ops|
  {
    hide HeapOk, TrampolineHolds, FreedOne, Outside, LiveSlotsOf, Consistent;
    HeapFacts(m, pRegions, pRegion, v);
    assert Matches(ops[0], pending[0]) && HookHeld(m, v, pending[0].h, program);
  }

  lemma HeldFields(m: Mem, v: View, base: Mem, hooks: seq<Hook>, program: iset<int>, ops: seq<Operation>,
                   pending: seq<Op>, i: nat)
    requires StateOk(m, v, base, hooks, program, ops, pending) && i < |hooks|
    ensures var h := hooks[i];
            var t := h.code;
            && h.cb >= SIZE_OF_JMP && At(m, t + OFF_CB_RESTORE) == h.cb && Read32(m, t + OFF_REMAIN) == h.target + h.cb
            && Read32(m, t + OFF_DETOUR) == h.detour && h.cb <= RESTORE_SIZE && h.target + h.cb < SPACE
  {
    assert HookHeld(m, v, hooks[i], program);
  }

  lemma PendingSize(m: Mem, v: View, ops: seq<Operation>, pending: seq<Op>, program: iset<int>)
    requires PendingHeld(m, v, ops, pending, program)
    ensures |ops| == |pending|
  {
  }

  lemma OutsideRefl(m: Mem, program: iset<int>)
    ensures OutsideSame(m, m, program)
  {
  }

  lemma OutsideStep(m: Mem, n: Mem, p: Mem, program: iset<int>)
    requires OutsideSame(m, n, program) && |n| == |p| && forall a :: 0 <= a < |n| && a !in program ==> p[a] == n[a]
    ensures OutsideSame(m, p, program)
  {
  }

  lemma OperationReady(m: Mem, n: Mem, pRegions: int, pRegion: int, v: View, program: iset<int>,
                       ops: seq<Operation>, pending: seq<Op>, k: nat)
    requires HeapOk(m, pRegions, pRegion, v) && PendingHeld(m, v, ops, pending, program) && Outside(v, program)
    requires OutsideSame(m, n, program) && k < |pending| && InProgram(pending[k].h, program)
    ensures Matches(ops[k], pending[k]) && TrampolineHolds(n, pending[k].h) && HookOk(pending[k].h, SPACE)
  {
    hide HeapOk, Outside, OutsideSame, TrampolineHolds, SameTrampolines, HookOk;
    ProgramWrites(m, n, pRegions, pRegion, v, program);
    forall i | 0 <= i < |pending| ensures pending[i].h.code in v.live { HeldLive(m, v, pending[i].h, program); }
    PendingKept(m, n, v, v, ops, pending, program, v.live);
    assert HookHeld(n, v, pending[k].h, program);
  }

  lemma CommitHead(m: Mem, pRegions: int, pRegion: int, v: View, base: Mem, hooks: seq<Hook>, program: iset<int>,
                   ops: seq<Operation>, pending: seq<Op>)
    requires HeapOk(m, pRegions, pRegion, v) && Committing(m, v, base, hooks, program, ops, pending) && ops != []
    ensures ops[0].pTrampoline in v.live && ops[0].pTrampoline != 0 && LiveSlotsOf(v) && Outside(v, program)
    ensures |pending| == |ops|
  {
    hide HeapOk, TrampolineHolds, Outside, LiveSlotsOf, Consistent;
    HeapFacts(m, pRegions, pRegion, v);
    assert Matches(ops[0], pending[0]) && HookHeld(m, v, pending[0].h, program);
  }

  lemma CommitNone(m: Mem, v: View, base: Mem, hooks: seq<Hook>, program: iset<int>, pending: seq<Op>)
    requires Committing(m, v, base, hooks, program, [], pending)
    ensures pending == []
  {
    hide Consistent, Outside;
  }
}

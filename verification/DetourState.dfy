/** What holds of a process between any two calls of the hooking API: attached hooks, pending
    operations and trampoline memory, over the bytes of one address space. */
module DetourState {
  import opened Options
  import opened Memory
  import opened X86Flow
  import opened X86Relocation
  import opened X86Trampoline
  import opened HookLayers
  import opened DetourCopy
  import opened TrampolineHeap
  import opened TrampolineAllocator
  import opened TrampolineRegions

  // ------------------------------------------------------------------------------- jump stubs

  /** One step over an import table stub. */
  function SkipImport(m: Mem, imported: (int, int) -> bool, p: u32): u32
  {
    if IsIndirectJmp(m, p) && imported(p, Read32(m, p + 2)) then Read32(m, Read32(m, p + 2)) else p
  }

  /** Where the long jump at `s` leads, unless it leads to a patch made by the system. */
  function SkipLong(m: Mem, s: u32): u32
  {
    var to := Wrap(s + 5 + Signed(Read32(m, s + 1), SPACE));
    if IsIndirectJmp(m, to) && Read32(m, to + 2) == Wrap(to + 0x1000) then s else to
  }

  /** detour_skip_jmp: the function behind the import and patch jumps at `p`. */
  function SkipJmp(m: Mem, imported: (int, int) -> bool, p: u32): u32
  {
    if p == 0 then 0
    else
      var q := SkipImport(m, imported, p);
      var s := Wrap(q + 2 + Disp8(m, q + 1));
      if At(m, q) != 0xeb then q
      else if IsIndirectJmp(m, s) then SkipImport(m, imported, s)
      else if At(m, s) == 0xe9 then SkipLong(m, s)
      else s
  }

  /** An import table stub: a jump through a slot that the image's import table is known to hold. */
  predicate IsStub(m: Mem, imported: (int, int) -> bool, p: nat)
  {
    IsIndirectJmp(m, p) && imported(p, Read32(m, p + 2))
  }

  /** A jump through the word one page on, as the system's own patches use it. */
  predicate IsSystemPatch(m: Mem, p: nat) { IsIndirectJmp(m, p) && Read32(m, p + 2) == Wrap(p + 0x1000) }

  lemma StubJumps(m: Mem, p: nat)
    requires IsIndirectJmp(m, p) && p + 1 < |m|
    ensures JumpsTo(m, p) == Some(Read32(m, Read32(m, p + 2)))
  {
    hide Read32;
  }

  lemma ShortJumps(m: Mem, q: nat)
    requires At(m, q) == 0xeb && q + 2 <= |m|
    ensures JumpsTo(m, q) == Some(Wrap(q + 2 + Disp8(m, q + 1)))
  {
    hide Signed, Disp8;
    OpcodeForm(m, q, false, false);
  }

  lemma LongJumps(m: Mem, s: nat)
    requires At(m, s) == 0xe9 && s + 5 <= |m|
    ensures JumpsTo(m, s) == Some(Wrap(s + 5 + Signed(Read32(m, s + 1), SPACE)))
  {
    hide Signed, Read32;
    OpcodeForm(m, s, false, false);
    NearForm(m, s + 1, JumpKind);
  }

  /** The look-through follows the program's own jumps: over an import stub; then, if a short jump stands
      there, to its destination; and from there over one more import stub or one long jump, unless that
      leads to a patch of the system. Anything else is the code itself. */
  lemma SkipJmpFollows(m: Mem, imported: (int, int) -> bool, p: u32)
    requires p != 0 && |m| == SPACE && p + 5 <= SPACE
    ensures IsStub(m, imported, p) ==> JumpsTo(m, p).Some?
    ensures var q := if IsStub(m, imported, p) then JumpsTo(m, p).value else p;
            && (At(m, q) != 0xeb ==> SkipJmp(m, imported, p) == q)
            && (At(m, q) == 0xeb && q + 2 <= SPACE ==>
                  && JumpsTo(m, q).Some?
                  && var s := JumpsTo(m, q).value;
                  s + 5 <= SPACE ==>
                    && (IsStub(m, imported, s) || At(m, s) == 0xe9 ==> JumpsTo(m, s).Some?)
                    && SkipJmp(m, imported, p)
                       == if IsStub(m, imported, s) || (At(m, s) == 0xe9 && !IsSystemPatch(m, JumpsTo(m, s).value))
                          then JumpsTo(m, s).value else s)
  {
    hide Read32, Disp8, Signed, JumpsTo, FlowAt;
    if IsStub(m, imported, p) { StubJumps(m, p); }
    var q := if IsStub(m, imported, p) then JumpsTo(m, p).value else p;
    if At(m, q) == 0xeb && q + 2 <= SPACE {
      ShortJumps(m, q);
      var s := JumpsTo(m, q).value;
      if IsStub(m, imported, s) && s + 5 <= SPACE { StubJumps(m, s); }
      if At(m, s) == 0xe9 && s + 5 <= SPACE { LongJumps(m, s); }
    }
  }

  /** Executing the code at `p` arrives, after at most three jumps, where the look-through does. */
  lemma SkipJmpReached(m: Mem, imported: (int, int) -> bool, p: u32)
    requires p != 0 && |m| == SPACE && p + 5 <= SPACE
    requires var q := if IsStub(m, imported, p) then Read32(m, Read32(m, p + 2)) else p;
             q + 2 <= SPACE && (At(m, q) == 0xeb && JumpsTo(m, q).Some? ==> JumpsTo(m, q).value + 5 <= SPACE)
    ensures exists k: nat :: k <= 3 && Jumping(m, p, k) == Some(SkipJmp(m, imported, p))
  {
    hide Read32, Disp8, Signed, JumpsTo, FlowAt, SkipJmp;
    SkipJmpFollows(m, imported, p);
    if IsStub(m, imported, p) { StubJumps(m, p); }
    var q := if IsStub(m, imported, p) then JumpsTo(m, p).value else p;
    var j := if IsStub(m, imported, p) then 1 else 0;
    JumpingOnce(m, p);
    if At(m, q) != 0xeb {
      assert Jumping(m, p, j) == Some(SkipJmp(m, imported, p));
    } else {
      var s := JumpsTo(m, q).value;
      JumpingOnce(m, q);
      JumpingOn(m, p, j, q);
      assert Jumping(m, p, j + 1) == Some(s);
      if SkipJmp(m, imported, p) != s {
        JumpingOn(m, p, j + 1, s);
        assert Jumping(m, p, j + 2) == Some(SkipJmp(m, imported, p));
      }
    }
  }

  lemma JumpingOnce(m: Mem, a: nat)
    ensures Jumping(m, a, 0) == Some(a)
    ensures JumpsTo(m, a).Some? ==> Jumping(m, a, 1) == Some(JumpsTo(m, a).value)
  {
    hide JumpsTo;
    if JumpsTo(m, a).Some? { assert Jumping(m, JumpsTo(m, a).value, 0) == Some(JumpsTo(m, a).value); }
  }

  lemma {:induction false} JumpingOn(m: Mem, a: nat, k: nat, b: nat)
    requires Jumping(m, a, k) == Some(b)
    ensures JumpsTo(m, b).Some? ==> Jumping(m, a, k + 1) == Some(JumpsTo(m, b).value)
    decreases k
  {
    hide JumpsTo;
    if k == 0 {
      JumpingOnce(m, a);
    } else {
      JumpingOn(m, JumpsTo(m, a).value, k - 1, b);
    }
  }

  // --------------------------------------------------------------------------------- the state

  /** DetourOperation; the list is kept with its head, the latest request, first. */
  datatype Operation = Operation(fIsRemove: bool, ppbPointer: nat, pbTarget: u32, pTrampoline: u32)

  /** No trampoline region overlaps the program. */
  ghost predicate Outside(v: View, program: iset<int>)
  {
    forall a :: a in program ==> 0 <= a < SPACE && RegionOf(a) !in v.regions
  }

  ghost predicate HookHeld(m: Mem, v: View, h: Hook, program: iset<int>)
  {
    TrampolineHolds(m, h) && Carried(m, h) && At(m, h.code) != 0xeb && h.code in v.live && h.target + h.cb in program
  }

  ghost predicate HooksHeld(m: Mem, v: View, hooks: seq<Hook>, program: iset<int>)
  {
    forall i :: 0 <= i < |hooks| ==> HookHeld(m, v, hooks[i], program)
  }

  predicate Matches(o: Operation, op: Op)
  {
    op.Attach? == !o.fIsRemove && op.h.pointer == o.ppbPointer && op.h.target == o.pbTarget
    && op.h.code == o.pTrampoline
  }

  ghost predicate PendingHeld(m: Mem, v: View, ops: seq<Operation>, pending: seq<Op>, program: iset<int>)
  {
    && |ops| == |pending|
    && (forall i :: 0 <= i < |ops| ==> Matches(ops[i], pending[i]))
    && (forall i :: 0 <= i < |pending| ==> HookHeld(m, v, pending[i].h, program))
  }

  ghost predicate DistinctCodes(hooks: seq<Hook>)
  {
    forall i, j :: 0 <= i < j < |hooks| ==> hooks[i].code != hooks[j].code
  }

  ghost function Codes(hooks: seq<Hook>): set<int> { set h | h in hooks :: h.code }

  ghost function AttachCodes(pending: seq<Op>): set<int> { set op | op in pending && op.Attach? :: op.h.code }

  ghost function DetachCodes(pending: seq<Op>): set<int> { set op | op in pending && op.Detach? :: op.h.code }

  /** Each pending operation has a trampoline of its own: a new one, or an attached hook's. */
  ghost predicate OpsFit(hooks: seq<Hook>, pending: seq<Op>)
  {
    && (forall i, j :: 0 <= i < j < |pending| ==> pending[i].h.code != pending[j].h.code)
    && (forall i :: 0 <= i < |pending| ==> (pending[i].Detach? <==> pending[i].h.code in Codes(hooks)))
  }

  ghost predicate Live(v: View, codes: set<int>)
  {
    forall t: int :: t in codes <==> t in v.live
  }

  ghost predicate StateOk(m: Mem, v: View, base: Mem, hooks: seq<Hook>, program: iset<int>, ops: seq<Operation>,
                          pending: seq<Op>)
  {
    && Consistent(base, m, hooks, program)
    && Outside(v, program)
    && HooksHeld(m, v, hooks, program)
    && PendingHeld(m, v, ops, pending, program)
    && CapturedBefore(m, hooks, pending, program) && PairwiseDisjoint(pending)
    && DistinctCodes(hooks) && OpsFit(hooks, pending)
    && Live(v, Codes(hooks) + AttachCodes(pending))
  }

  ghost predicate SameProgram(m: Mem, n: Mem, program: iset<int>)
  {
    |m| == |n| && forall a :: a in program && 0 <= a < |m| ==> n[a] == m[a]
  }

  ghost predicate SameTrampolines(m: Mem, n: Mem, live: set<u32>)
  {
    forall t :: t in live ==> Agree(m, n, t, t + TRAMPOLINE_SIZE)
  }

  // ------------------------------------------------------------------------------------ frames

  lemma HeldKept(m: Mem, n: Mem, v: View, w: View, h: Hook, program: iset<int>)
    requires HookHeld(m, v, h, program) && Agree(m, n, h.code, h.code + TRAMPOLINE_SIZE) && h.code in w.live
    ensures HookHeld(n, w, h, program)
  {
    hide Read32, JmpBytes, Carried;
    CarriedKept(m, n, h);
    var t := h.code;
    var cbCode := At(m, t + OFF_CB_CODE);
    AgreeAt(m, n, t, t + TRAMPOLINE_SIZE, t);
    AgreeAt(m, n, t, t + TRAMPOLINE_SIZE, t + OFF_CB_CODE);
    AgreeAt(m, n, t, t + TRAMPOLINE_SIZE, t + OFF_CB_RESTORE);
    AgreeRead(m, n, t, t + TRAMPOLINE_SIZE, t + OFF_REMAIN);
    AgreeRead(m, n, t, t + TRAMPOLINE_SIZE, t + OFF_DETOUR);
    forall k | 0 <= k < h.cb ensures At(n, t + OFF_RESTORE + k) == h.saved[k] {
      AgreeAt(m, n, t, t + TRAMPOLINE_SIZE, t + OFF_RESTORE + k);
    }
    assert n[t + cbCode..t + cbCode + 5] == m[t + cbCode..t + cbCode + 5];
  }

  lemma AgreeAt(m: Mem, n: Mem, lo: int, hi: int, a: int)
    requires Agree(m, n, lo, hi) && lo <= a < hi
    ensures At(m, a) == At(n, a)
  {
  }

  lemma AgreeRead(m: Mem, n: Mem, lo: int, hi: int, a: int)
    requires Agree(m, n, lo, hi) && lo <= a && a + 4 <= hi
    ensures Read32(m, a) == Read32(n, a)
  {
  }

  lemma AllHeldKept(m: Mem, n: Mem, v: View, w: View, hooks: seq<Hook>, program: iset<int>, live: set<u32>)
    requires HooksHeld(m, v, hooks, program) && SameTrampolines(m, n, live)
    requires forall i :: 0 <= i < |hooks| ==> hooks[i].code in w.live && hooks[i].code in live
    ensures HooksHeld(n, w, hooks, program)
  {
    hide HookHeld;
    forall i | 0 <= i < |hooks| ensures HookHeld(n, w, hooks[i], program) {
      HeldKept(m, n, v, w, hooks[i], program);
    }
  }

  lemma HeldLive(m: Mem, v: View, h: Hook, program: iset<int>)
    requires HookHeld(m, v, h, program)
    ensures h.code in v.live
  {
  }

  lemma PendingKept(m: Mem, n: Mem, v: View, w: View, ops: seq<Operation>, pending: seq<Op>, program: iset<int>,
                    live: set<u32>)
    requires PendingHeld(m, v, ops, pending, program) && SameTrampolines(m, n, live)
    requires forall i :: 0 <= i < |pending| ==> pending[i].h.code in w.live && pending[i].h.code in live
    ensures PendingHeld(n, w, ops, pending, program)
  {
    hide HookHeld, Matches;
    forall i | 0 <= i < |pending| ensures HookHeld(n, w, pending[i].h, program) {
      HeldKept(m, n, v, w, pending[i].h, program);
    }
  }

  lemma ConsistentKept(base: Mem, m: Mem, n: Mem, hooks: seq<Hook>, program: iset<int>)
    requires Consistent(base, m, hooks, program) && SameProgram(m, n, program)
    ensures Consistent(base, n, hooks, program)
  {
    hide HookOk, SavesBelow, Layer, Covers;
  }

  lemma CapturedKept(m: Mem, n: Mem, hooks: seq<Hook>, pending: seq<Op>, program: iset<int>)
    requires CapturedBefore(m, hooks, pending, program) && SameProgram(m, n, program)
    ensures CapturedBefore(n, hooks, pending, program)
  {
    hide MayDetach, Legal;
    forall i | 0 <= i < |pending| ensures Legal(n, hooks, pending[i], program) {
      LegalKept(m, n, hooks, pending[i], program);
    }
  }

  lemma LegalKept(m: Mem, n: Mem, hooks: seq<Hook>, op: Op, program: iset<int>)
    requires Legal(m, hooks, op, program) && SameProgram(m, n, program)
    ensures Legal(n, hooks, op, program)
  {
    hide MayDetach, SavedByte;
    if op.Attach? {
      assert HookOk(op.h, |n|);
      forall a | Covers(op.h, a) ensures a in program && (InPointer(op.h, a) || SavedByte(op.h, a) == At(n, a)) { }
    }
  }

  /** Writing elsewhere, and handing out or returning trampolines nobody holds, keeps the state. */
  lemma StateKept(m: Mem, n: Mem, v: View, w: View, base: Mem, hooks: seq<Hook>, program: iset<int>,
                  ops: seq<Operation>, pending: seq<Op>)
    requires StateOk(m, v, base, hooks, program, ops, pending)
    requires SameProgram(m, n, program) && SameTrampolines(m, n, v.live) && Outside(w, program) && w.live == v.live
    ensures StateOk(n, w, base, hooks, program, ops, pending)
  {
    hide Consistent, CapturedBefore, PairwiseDisjoint, Outside, DistinctCodes, OpsFit, SameProgram,
      SameTrampolines, HookHeld, Matches;
    ConsistentKept(base, m, n, hooks, program);
    CapturedKept(m, n, hooks, pending, program);
    forall i | 0 <= i < |hooks| ensures hooks[i].code in w.live { HeldLive(m, v, hooks[i], program); }
    forall i | 0 <= i < |pending| ensures pending[i].h.code in w.live { HeldLive(m, v, pending[i].h, program); }
    AllHeldKept(m, n, v, w, hooks, program, v.live);
    PendingKept(m, n, v, w, ops, pending, program, v.live);
  }

  // ------------------------------------------------------------- one more pending operation

  lemma StateWith(m: Mem, v: View, base: Mem, hooks: seq<Hook>, program: iset<int>, ops: seq<Operation>,
                  pending: seq<Op>, o: Operation, op: Op)
    requires Consistent(base, m, hooks, program) && Outside(v, program)
    requires HooksHeld(m, v, hooks, program) && PendingHeld(m, v, ops, pending, program)
    requires CapturedBefore(m, hooks, pending, program) && PairwiseDisjoint(pending)
    requires DistinctCodes(hooks) && OpsFit(hooks, pending)
    requires Matches(o, op) && HookHeld(m, v, op.h, program) && Legal(m, hooks, op, program)
    requires forall i :: 0 <= i < |pending| ==> Disjoint(op.h, pending[i].h) && op.h.code != pending[i].h.code
    requires op.Detach? <==> op.h.code in Codes(hooks)
    requires Live(v, Codes(hooks) + AttachCodes([op] + pending))
    ensures StateOk(m, v, base, hooks, program, [o] + ops, [op] + pending)
  {
    hide Consistent, HooksHeld, HookHeld, Legal, Disjoint, Outside, DistinctCodes, Matches, Live, Codes, AttachCodes;
    var s := [op] + pending;
    forall i | 0 <= i < |s|
      ensures Legal(m, hooks, s[i], program) && HookHeld(m, v, s[i].h, program) && Matches(([o] + ops)[i], s[i]) {
      if i > 0 { assert s[i] == pending[i - 1] && ([o] + ops)[i] == ops[i - 1]; }
    }
    forall i, j | 0 <= i < j < |s| ensures Disjoint(s[i].h, s[j].h) && s[i].h.code != s[j].h.code {
      assert s[j] == pending[j - 1];
      if i > 0 { assert s[i] == pending[i - 1]; }
    }
    forall i | 0 <= i < |s| ensures s[i].Detach? <==> s[i].h.code in Codes(hooks) {
      if i > 0 { assert s[i] == pending[i - 1]; }
    }
  }

  lemma CodesCons(op: Op, pending: seq<Op>)
    ensures AttachCodes([op] + pending) == AttachCodes(pending) + (if op.Attach? then {op.h.code as int} else {})
    ensures DetachCodes([op] + pending) == DetachCodes(pending) + (if op.Detach? then {op.h.code as int} else {})
  {
    var s := [op] + pending;
    assert forall x :: x in s <==> x == op || x in pending;
  }

  lemma HookCode(hooks: seq<Hook>, i: nat)
    requires i < |hooks|
    ensures hooks[i].code in Codes(hooks)
  {
    assert hooks[i] in hooks;
  }

  lemma OpCode(pending: seq<Op>, i: nat)
    requires i < |pending|
    ensures pending[i].Attach? ==> pending[i].h.code in AttachCodes(pending)
    ensures pending[i].Detach? ==> pending[i].h.code in DetachCodes(pending)
  {
    assert pending[i] in pending;
  }

  // ------------------------------------------------------------------------- undoing attaches

  ghost function FreedOne(v: View, t: u32): View
  {
    if RegionOf(t) in v.free then PushView(v, t) else v
  }

  /** The heap after abort returns the trampolines of the pending attaches, latest first. */
  ghost function FreedBy(v: View, ops: seq<Operation>): View
    decreases |ops|
  {
    if ops == [] then v
    else FreedBy(if ops[0].fIsRemove then v else FreedOne(v, ops[0].pTrampoline), ops[1..])
  }

  /** `v` gives every region of `begun` the free list it had there, and the same trampolines in use. */
  ghost predicate Returned(v: View, begun: View)
  {
    && v.live == begun.live
    && forall r :: r in begun.regions ==> r in v.free && r in begun.free && v.free[r] == begun.free[r]
  }

  lemma {:induction false} FreedGrown(v: View, w: View, ops: seq<Operation>, r: u32)
    requires w.live == v.live && (forall q :: q in v.free && q != r ==> q in w.free && w.free[q] == v.free[q])
    requires r in w.free && forall q :: q in w.free ==> q == r || q in v.free
    requires forall i :: 0 <= i < |ops| && !ops[i].fIsRemove ==>
                           RegionOf(ops[i].pTrampoline) in v.free && RegionOf(ops[i].pTrampoline) != r
    ensures FreedBy(w, ops).live == FreedBy(v, ops).live
    ensures forall q :: q in FreedBy(v, ops).free && q != r ==>
                          q in FreedBy(w, ops).free && FreedBy(w, ops).free[q] == FreedBy(v, ops).free[q]
    decreases |ops|
  {
    hide RegionOf;
    if ops != [] {
      var v' := if ops[0].fIsRemove then v else FreedOne(v, ops[0].pTrampoline);
      var w' := if ops[0].fIsRemove then w else FreedOne(w, ops[0].pTrampoline);
      FreedGrown(v', w', ops[1..], r);
    }
  }

  /** Handing out a trampoline and queueing its operation changes nothing that abort leaves. */
  lemma FreedAttach(v: View, w: View, ops: seq<Operation>, o: Operation)
    requires !o.fIsRemove && TakenFrom(v, w, o.pTrampoline) && o.pTrampoline !in v.live
    ensures FreedBy(w, [o] + ops) == FreedBy(v, ops)
  {
    hide RegionOf;
    var t := o.pTrampoline;
    var r := RegionOf(t);
    TakenBack(v, w, t);
    assert ([o] + ops)[1..] == ops;
  }

  lemma TakenBack(v: View, w: View, t: u32)
    requires TakenFrom(v, w, t) && t !in v.live
    ensures RegionOf(t) in w.free && PushView(w, t) == v
  {
    hide RegionOf;
    var r := RegionOf(t);
    assert [t] + v.free[r][1..] == v.free[r];
    assert w.free[r := v.free[r]] == v.free;
  }

  lemma FreedDetach(v: View, ops: seq<Operation>, o: Operation)
    requires o.fIsRemove
    ensures FreedBy(v, [o] + ops) == FreedBy(v, ops)
  {
    assert ([o] + ops)[1..] == ops;
  }
}

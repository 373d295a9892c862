/** How one call of the API changes the state: values only. */
module DetourSteps {
  import opened Memory
  import opened X86Trampoline
  import opened HookLayers
  import opened DetourCopy
  import opened TrampolineHeap
  import opened TrampolineAllocator
  import opened TrampolineRegions
  import opened DetourState
  import opened DetourFrames
  import opened DetourCommit

  /** A 64 KB block the system may hand out: free, and in no loaded module. */
  ghost predicate FreshPlace(v: View, program: iset<int>, imported: (int, int) -> bool, r: u32)
  {
    && RegionPlace(r) && r !in v.regions
    && (forall a :: r <= a < r + REGION_SIZE ==> a !in program)
    && (forall a, b :: RegionOf(a) == r ==> !imported(a, b))
  }

  /** No code in a trampoline region is taken for an import stub. */
  ghost predicate NotImported(v: View, imported: (int, int) -> bool)
  {
    forall a, b :: RegionOf(a) in v.regions ==> !imported(a, b)
  }

  lemma SameProgramTrans(m: Mem, n: Mem, p: Mem, program: iset<int>)
    requires SameProgram(m, n, program) && SameProgram(n, p, program)
    ensures SameProgram(m, p, program)
  {
  }

  lemma SameTrampolinesTrans(m: Mem, n: Mem, p: Mem, live: set<u32>)
    requires SameTrampolines(m, n, live) && SameTrampolines(n, p, live) && |m| == |n| == |p|
    ensures SameTrampolines(m, p, live)
  {
    forall t | t in live ensures Agree(m, p, t, t + TRAMPOLINE_SIZE) {
      assert Agree(m, n, t, t + TRAMPOLINE_SIZE) && Agree(n, p, t, t + TRAMPOLINE_SIZE);
    }
  }

  /** The heap a failed attach leaves: grown by a region, if one had to be obtained. */
  ghost predicate GrownBy(v: View, g: View, newRegion: u32)
  {
    g == v || (newRegion != 0 && g == Grown(v, newRegion))
  }

  lemma GrownKeeps(v: View, g: View, program: iset<int>, imported: (int, int) -> bool, newRegion: u32)
    requires GrownBy(v, g, newRegion) && Outside(v, program) && NotImported(v, imported)
    requires newRegion != 0 ==> FreshPlace(v, program, imported, newRegion)
    ensures Outside(g, program) && NotImported(g, imported) && g.live == v.live
    ensures forall r :: r in v.regions ==> r in g.regions
  {
    if g != v { GrownOutside(v, program, newRegion); }
    hide RegionOf, FreshList;
  }

  /** Trampoline `t`, just handed out, is nobody else's. */
  lemma TakenIsNew(m: Mem, pRegions: int, pRegion: int, v: View, g: View, w: View, t: u32, newRegion: u32)
    requires HeapOk(m, pRegions, pRegion, v) && GrownBy(v, g, newRegion)
             && (newRegion != 0 ==> RegionPlace(newRegion) && newRegion !in v.regions)
    requires TakenFrom(g, w, t)
    ensures t !in v.live && IsSlot(RegionOf(t), t) && RegionOf(t) in g.regions && t in w.live
  {
    LiveSlots(m, pRegions, pRegion, v);
    var r := RegionOf(t);
    if r in v.regions {
      RegionFacts(m, pRegions, pRegion, v, r);
      assert t in g.free[r];
    } else {
      FreshMembers(r, 2);
      assert t in FreshList(r, 2);
    }
  }

  /** Allocating touches neither the program nor a trampoline in use. */
  lemma AllocStep(m: Mem, n: Mem, pRegions: int, pRegion: int, v: View, g: View, w: View, t: u32, newRegion: u32,
                  frameRegion: u32,
                  program: iset<int>, imported: (int, int) -> bool)
    requires HeapOk(m, pRegions, pRegion, v) && Outside(v, program) && NotImported(v, imported)
    requires newRegion != 0 ==> FreshPlace(v, program, imported, newRegion)
    requires frameRegion in {0, newRegion} && g == if frameRegion == 0 then v else Grown(v, frameRegion)
    requires AllocFrame(m, n, t, frameRegion)
    requires if t == 0 then w == g else TakenFrom(g, w, t)
    ensures SameProgram(m, n, program) && SameTrampolines(m, n, v.live)
    ensures Outside(w, program) && NotImported(w, imported) && w.live == v.live + if t == 0 then {} else {t}
    ensures t != 0 ==> t !in v.live && IsSlot(RegionOf(t), t) && RegionOf(t) in w.regions
    ensures (forall r :: r in v.regions ==> r in w.regions) && g.live == v.live
  {
    hide HeapOk, AllocFrame, Outside, NotImported, IsSlot, RegionOf, FreshList;
    LiveSlots(m, pRegions, pRegion, v);
    GrownKeeps(v, g, program, imported, newRegion);
    if t != 0 { TakenIsNew(m, pRegions, pRegion, v, g, w, t, newRegion); }
    AllocKeeps(m, n, v, g, program, t, frameRegion);
    SameRegionsOutside(g, w, program, imported);
  }

  lemma SameRegionsOutside(g: View, w: View, program: iset<int>, imported: (int, int) -> bool)
    requires g.regions == w.regions && Outside(g, program) && NotImported(g, imported)
    ensures Outside(w, program) && NotImported(w, imported)
  {
  }

  /** A successful attach adds its operation to a good state. */
  lemma AttachedState(m: Mem, n: Mem, v: View, w: View, base: Mem, hooks: seq<Hook>, program: iset<int>,
                      ops: seq<Operation>, pending: seq<Op>, o: Operation, h: Hook)
    requires StateOk(m, v, base, hooks, program, ops, pending)
    requires SameProgram(m, n, program) && SameTrampolines(m, n, v.live) && Outside(w, program)
    requires w.live == v.live + {h.code} && h.code !in v.live
    requires HookHeld(n, w, h, program) && Matches(o, Attach(h)) && MayAttach(m, hooks, h, program)
    requires forall i :: 0 <= i < |pending| ==> Disjoint(h, pending[i].h)
    ensures StateOk(n, w, base, hooks, program, [o] + ops, [Attach(h)] + pending)
  {
    hide Consistent, CapturedBefore, PairwiseDisjoint, Outside, DistinctCodes, SameProgram, SameTrampolines,
      HookHeld, Disjoint, MayAttach, Codes, AttachCodes;
    ConsistentKept(base, m, n, hooks, program);
    CapturedKept(m, n, hooks, pending, program);
    forall i | 0 <= i < |hooks|
      ensures hooks[i].code in w.live && hooks[i].code in v.live { HeldLive(m, v, hooks[i], program); }
    forall i | 0 <= i < |pending|
      ensures pending[i].h.code in w.live && pending[i].h.code in v.live
              && pending[i].h.code != h.code { HeldLive(m, v, pending[i].h, program); }
    AllHeldKept(m, n, v, w, hooks, program, v.live);
    PendingKept(m, n, v, w, ops, pending, program, v.live);
    LegalKept(m, n, hooks, Attach(h), program);
    CodesCons(Attach(h), pending);
    assert h.code !in Codes(hooks);
    StateWith(n, w, base, hooks, program, ops, pending, o, Attach(h));
  }

  /** A successful detach adds its operation to a good state. */
  lemma DetachedState(m: Mem, v: View, base: Mem, hooks: seq<Hook>, program: iset<int>,
                      ops: seq<Operation>, pending: seq<Op>, o: Operation, i: nat)
    requires StateOk(m, v, base, hooks, program, ops, pending) && i < |hooks| && Topmost(hooks, i)
    requires Matches(o, Detach(hooks[i])) && hooks[i].cb >= SIZE_OF_JMP
    requires forall j :: 0 <= j < |pending| ==> Disjoint(hooks[i], pending[j].h)
    ensures StateOk(m, v, base, hooks, program, [o] + ops, [Detach(hooks[i])] + pending)
  {
    hide Consistent, Outside, DistinctCodes, HookHeld, SavesBelow, AttachCodes;
    var h := hooks[i];
    assert h.code in Codes(hooks) by { HookCode(hooks, i); }
    CodesCons(Detach(h), pending);
    assert HookHeld(m, v, h, program);
    assert MayDetach(hooks, h);
    forall j | 0 <= j < |pending| ensures pending[j].h.code != h.code {
      NotItself(h, pending[j].h);
      if pending[j].h.code == h.code { SameHook(m, hooks, pending, program, i, j); }
    }
    StateWith(m, v, base, hooks, program, ops, pending, o, Detach(h));
  }

  lemma NotItself(g: Hook, h: Hook)
    requires Disjoint(g, h) && g.cb >= SIZE_OF_JMP
    ensures g != h
  {
    assert Covers(g, g.target);
  }

  lemma SameHook(m: Mem, hooks: seq<Hook>, pending: seq<Op>, program: iset<int>, i: nat, j: nat)
    requires DistinctCodes(hooks) && OpsFit(hooks, pending) && CapturedBefore(m, hooks, pending, program)
    requires i < |hooks| && j < |pending| && pending[j].h.code == hooks[i].code
    ensures pending[j].h == hooks[i]
  {
    HookCode(hooks, i);
    assert pending[j].Detach? && Legal(m, hooks, pending[j], program);
    var k :| 0 <= k < |hooks| && hooks[k] == pending[j].h && Topmost(hooks, k);
  }

  /** Room for undoing survives a new operation. */
  lemma AttachedUndo(v: View, g: View, w: View, ops: seq<Operation>, begun: View, o: Operation, newRegion: u32)
    requires Returned(FreedBy(v, ops), begun) && GrownBy(v, g, newRegion) && TakenFrom(g, w, o.pTrampoline)
             && !o.fIsRemove
    requires o.pTrampoline !in v.live && (newRegion != 0 ==> newRegion !in begun.regions && newRegion !in v.regions)
    requires OpsPlaced(v, ops)
    ensures Returned(FreedBy(g, ops), begun) && Returned(FreedBy(w, [o] + ops), begun)
  {
    hide FreedBy, RegionOf, FreshList;
    if g != v { FreedGrown(v, g, ops, newRegion); }
    FreedAttach(g, w, ops, o);
  }

  ghost predicate OpsPlaced(v: View, ops: seq<Operation>)
  {
    forall i :: 0 <= i < |ops| && !ops[i].fIsRemove ==>
                  RegionOf(ops[i].pTrampoline) in v.regions && RegionOf(ops[i].pTrampoline) in v.free
  }

  lemma GrownUndo(v: View, g: View, ops: seq<Operation>, begun: View, newRegion: u32)
    requires Returned(FreedBy(v, ops), begun) && GrownBy(v, g, newRegion)
    requires (newRegion != 0 ==> newRegion !in begun.regions && newRegion !in v.regions) && OpsPlaced(v, ops)
    ensures Returned(FreedBy(g, ops), begun)
  {
    hide FreedBy, RegionOf, FreshList;
    if g != v { FreedGrown(v, g, ops, newRegion); }
  }

  lemma PendingPlaced(m: Mem, pRegions: int, pRegion: int, v: View, ops: seq<Operation>, pending: seq<Op>,
                      program: iset<int>)
    requires HeapOk(m, pRegions, pRegion, v) && PendingHeld(m, v, ops, pending, program)
    ensures OpsPlaced(v, ops)
  {
    LiveSlots(m, pRegions, pRegion, v);
    hide RegionOf, IsSlot, TrampolineHolds, RegionOk, FreeChain, RegionChain, Partition;
    forall i | 0 <= i < |ops| && !ops[i].fIsRemove
      ensures RegionOf(ops[i].pTrampoline) in v.regions && RegionOf(ops[i].pTrampoline) in v.free
    {
      assert Matches(ops[i], pending[i]) && HookHeld(m, v, pending[i].h, program);
    }
  }

  /** A trampoline's own first byte is never taken for a patch jump or an import stub. */
  lemma TrampolineNotSkipped(m: Mem, v: View, imported: (int, int) -> bool, h: Hook, program: iset<int>)
    requires HookHeld(m, v, h, program) && LiveSlotsOf(v) && NotImported(v, imported)
    ensures SkipJmp(m, imported, h.code) == h.code
  {
    assert !imported(h.code, Read32(m, h.code + 2)) by { assert RegionOf(h.code) in v.regions; }
  }

  lemma NothingPending(m: Mem, pRegions: int, pRegion: int, v: View, base: Mem, hooks: seq<Hook>,
                       program: iset<int>, pending: seq<Op>)
    requires HeapOk(m, pRegions, pRegion, v) && StateOk(m, v, base, hooks, program, [], pending)
    ensures pending == [] && Returned(FreedBy(v, []), v)
  {
    hide RegionOk, RegionChain, Partition, Consistent, CapturedBefore;
  }

  lemma FreshFacts(v: View, program: iset<int>, imported: (int, int) -> bool, r: u32, begun: View)
    requires FreshPlace(v, program, imported, r) && forall q :: q in begun.regions ==> q in v.regions
    ensures RegionPlace(r) && r !in v.regions && r !in begun.regions
  {
  }

  lemma StateParts(m: Mem, v: View, base: Mem, hooks: seq<Hook>, program: iset<int>, ops: seq<Operation>,
                   pending: seq<Op>)
    requires StateOk(m, v, base, hooks, program, ops, pending)
    ensures Outside(v, program) && PendingHeld(m, v, ops, pending, program) && HooksHeld(m, v, hooks, program)
    ensures Consistent(base, m, hooks, program) && DistinctCodes(hooks) && OpsFit(hooks, pending)
    ensures CapturedBefore(m, hooks, pending, program) && PairwiseDisjoint(pending)
    ensures Live(v, Codes(hooks) + AttachCodes(pending))
  {
  }

  lemma SameProgramRefl(m: Mem, program: iset<int>)
    ensures SameProgram(m, m, program)
  {
  }

  /** Taking the latest operation back, with the trampoline it allocated. */
  lemma PopOperation(m: Mem, n: Mem, v: View, w: View, base: Mem, hooks: seq<Hook>, program: iset<int>,
                     ops: seq<Operation>, pending: seq<Op>)
    requires StateOk(m, v, base, hooks, program, ops, pending) && ops != []
    requires SameProgram(m, n, program) && SameTrampolines(m, n, w.live) && Outside(w, program)
    requires w.live == if ops[0].fIsRemove then v.live else v.live - {ops[0].pTrampoline}
    ensures StateOk(n, w, base, hooks, program, ops[1..], pending[1..])
  {
    hide Consistent, CapturedBefore, PairwiseDisjoint, Outside, DistinctCodes, SameProgram, SameTrampolines,
      HookHeld, Disjoint, MayAttach, Codes, AttachCodes;
    ConsistentKept(base, m, n, hooks, program);
    CapturedKept(m, n, hooks, pending, program);
    var op, rest := pending[0], pending[1..];
    assert pending == [op] + rest && Matches(ops[0], op);
    CodesCons(op, rest);
    CodesApart(op, rest);
    forall i | 0 <= i < |hooks| ensures hooks[i].code in w.live {
      HeldLive(m, v, hooks[i], program);
      HookCode(hooks, i);
    }
    forall i | 0 <= i < |rest| ensures rest[i].h.code in w.live {
      assert rest[i] == pending[i + 1];
      HeldLive(m, v, pending[i + 1].h, program);
    }
    AllHeldKept(m, n, v, w, hooks, program, w.live);
    PendingTail(m, v, ops, pending, program);
    PendingKept(m, n, v, w, ops[1..], rest, program, w.live);
    TransactionTail(n, hooks, pending, program);
  }

  lemma PendingTail(m: Mem, v: View, ops: seq<Operation>, pending: seq<Op>, program: iset<int>)
    requires PendingHeld(m, v, ops, pending, program) && ops != []
    ensures PendingHeld(m, v, ops[1..], pending[1..], program)
  {
    hide HookHeld, Matches;
  }

  lemma TransactionTail(m: Mem, hooks: seq<Hook>, pending: seq<Op>, program: iset<int>)
    requires CapturedBefore(m, hooks, pending, program) && PairwiseDisjoint(pending) && OpsFit(hooks, pending)
             && pending != []
    ensures CapturedBefore(m, hooks, pending[1..], program) && PairwiseDisjoint(pending[1..])
            && OpsFit(hooks, pending[1..])
  {
    hide Legal, Disjoint, Codes;
  }
}

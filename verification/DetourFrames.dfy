/** Which steps of the API leave the heap, the program and the trampolines in use alone. */
module DetourFrames {
  import opened Memory
  import opened X86Trampoline
  import opened DetourCopy
  import opened TrampolineHeap
  import opened TrampolineAllocator
  import opened TrampolineRegions
  import opened DetourState

  // ---------------------------------------------------------------------------- the heap itself

  ghost predicate SameRegions(m: Mem, n: Mem, v: View)
  {
    |m| == |n| && forall a :: 0 <= a < |m| && RegionOf(a) in v.regions ==> n[a] == m[a]
  }

  lemma RegionBytes(m: Mem, n: Mem, v: View, r: u32)
    requires SameRegions(m, n, v) && r in v.regions && RegionPlace(r)
    ensures Agree(m, n, r, r + REGION_SIZE)
  {
    forall a | r <= a < r + REGION_SIZE && 0 <= a < |m| ensures m[a] == n[a] {
      assert RegionOf(a) == r;
    }
  }

  lemma RegionAgree(m: Mem, n: Mem, r: u32, free: seq<u32>)
    requires RegionOk(m, r, free) && Agree(m, n, r, r + REGION_SIZE)
    ensures RegionOk(n, r, free) && NextOf(m, r) == NextOf(n, r)
  {
    hide FreeChain, IsSlot, Distinct, Read32, Agree;
    forall x | x in free ensures Link(m, x) == Link(n, x) {
      SlotFacts(r, x);
      AgreeRead(m, n, r, r + REGION_SIZE, x + OFF_REMAIN);
    }
    AgreeRead(m, n, r, r + REGION_SIZE, r);
    AgreeRead(m, n, r, r + REGION_SIZE, r + OFF_NEXT);
    AgreeRead(m, n, r, r + REGION_SIZE, r + OFF_FREE);
    AgreeRead(m, n, r, r + REGION_SIZE, Slot(r, 0) + OFF_REMAIN);
    AgreeRead(m, n, r, r + REGION_SIZE, Slot(r, 1) + OFF_REMAIN);
    RegionKept(m, n, r, free);
  }

  /** Writing outside every region keeps the heap. */
  lemma HeapElsewhere(m: Mem, n: Mem, pRegions: int, pRegion: int, v: View)
    requires HeapOk(m, pRegions, pRegion, v) && SameRegions(m, n, v)
    ensures HeapOk(n, pRegions, pRegion, v)
  {
    assert |n| == |m|;
    hide RegionOk, RegionPlace, SameRegions, Partition, Distinct, NextOf;
    forall r | r in v.regions ensures r in v.free && RegionOk(n, r, v.free[r]) && NextOf(m, r) == NextOf(n, r) {
      RegionPlaceOf(m, r, v.free[r]);
      RegionBytes(m, n, v, r);
      RegionAgree(m, n, r, v.free[r]);
    }
    RegionChainFrame(m, n, pRegions, v.regions);
  }

  /** Writing into a trampoline in use keeps the heap. */
  lemma HeapFill(m: Mem, n: Mem, pRegions: int, pRegion: int, v: View, t: u32)
    requires HeapOk(m, pRegions, pRegion, v) && t in v.live && OnlyTrampoline(m, n, t)
    ensures HeapOk(n, pRegions, pRegion, v)
  {
    PartitionOf(m, pRegions, pRegion, v);
    TrampolineSpot(m, pRegions, pRegion, v, t);
    var r := RegionOf(t);
    RegionFacts(m, pRegions, pRegion, v, r);
    SlotFacts(r, t);
    assert Only(m, n, t, t + TRAMPOLINE_SIZE) && Only(m, n, r, r + REGION_SIZE);
    hide HeapOk, RegionOk, Only, OnlyTrampoline, IsSlot, RegionOf, Partition, RegionPlace;
    OwnRegion(m, n, r, t, v.free[r]);
    HeapFrame(m, n, pRegions, pRegion, v, v, r);
  }

  // ----------------------------------------------------------------- allocating and returning

  /** `t` and `s` are distinct trampolines of regions of `v`. */
  ghost predicate TwoSlots(v: View, t: int, s: int)
  {
    && IsSlot(RegionOf(t), t) && IsSlot(RegionOf(s), s) && t != s
    && RegionOf(t) in v.regions && RegionOf(s) in v.regions
  }

  lemma SlotUntouched(m: Mem, n: Mem, v: View, t: u32, s: u32, newRegion: u32)
    requires AllocFrame(m, n, t, newRegion) && TwoSlots(v, t, s) && newRegion % REGION_SIZE == 0
    requires newRegion != 0 ==> RegionOf(s) != newRegion
    ensures Agree(m, n, s, s + TRAMPOLINE_SIZE)
  {
    SlotFacts(RegionOf(t), t);
    SlotFacts(RegionOf(s), s);
    if RegionOf(t) == RegionOf(s) {
      SlotsApart(RegionOf(t), t, s);
    } else {
      RegionsApart(RegionOf(t), RegionOf(s));
    }
    if newRegion != 0 { RegionsApart(RegionOf(s), newRegion); }
  }

  lemma RegionSpan(r: int, a: int)
    requires r % REGION_SIZE == 0
    ensures r <= a < r + REGION_SIZE <==> RegionOf(a) == r
  {
  }

  lemma RegionAligned(t: int)
    ensures RegionOf(t) % REGION_SIZE == 0
  {
  }

  lemma ProgramUntouched(m: Mem, n: Mem, v: View, program: iset<int>, t: u32, newRegion: u32)
    requires AllocFrame(m, n, t, newRegion) && Outside(v, program)
    requires t != 0 ==> IsSlot(RegionOf(t), t) && RegionOf(t) in v.regions
    requires newRegion != 0 ==> RegionPlace(newRegion) && newRegion in v.regions
    ensures SameProgram(m, n, program)
  {
    hide RegionOf, IsSlot;
    RegionAligned(t);
    if t != 0 { SlotFacts(RegionOf(t), t); }
    forall a | a in program && 0 <= a < |m| ensures n[a] == m[a] {
      assert RegionOf(a) !in v.regions;
      RegionSpan(newRegion, a);
      RegionSpan(RegionOf(t), a);
    }
  }

  lemma FillUntouched(m: Mem, n: Mem, v: View, program: iset<int>, t: u32)
    requires OnlyTrampoline(m, n, t) && Outside(v, program) && IsSlot(RegionOf(t), t) && RegionOf(t) in v.regions
    ensures SameProgram(m, n, program)
    ensures forall s :: s in v.live && TwoSlots(v, t, s) ==> Agree(m, n, s, s + TRAMPOLINE_SIZE)
  {
    assert AllocFrame(m, n, t, 0);
    ProgramUntouched(m, n, v, program, t, 0);
    forall s | s in v.live && TwoSlots(v, t, s) ensures Agree(m, n, s, s + TRAMPOLINE_SIZE) {
      SlotFacts(RegionOf(s), s);
      SlotFacts(RegionOf(t), t);
      if RegionOf(t) == RegionOf(s) { SlotsApart(RegionOf(t), t, s); } else { RegionsApart(RegionOf(t), RegionOf(s)); }
    }
  }

  lemma LiveSlots(m: Mem, pRegions: int, pRegion: int, v: View)
    requires HeapOk(m, pRegions, pRegion, v)
    ensures forall t :: t in v.live ==> RegionOf(t) in v.regions && IsSlot(RegionOf(t), t)
  {
  }

  ghost predicate LiveSlotsOf(v: View)
  {
    forall t :: t in v.live ==> RegionOf(t) in v.regions && IsSlot(RegionOf(t), t)
  }

  /** Growing the heap leaves the program outside it. */
  lemma GrownOutside(v: View, program: iset<int>, r: u32)
    requires Outside(v, program) && forall a :: r <= a < r + REGION_SIZE ==> a !in program
    requires RegionPlace(r)
    ensures Outside(Grown(v, r), program)
  {
    forall a | a in program ensures RegionOf(a) !in Grown(v, r).regions {
      RegionSpan(r, a);
    }
  }

  /** An allocation that grew `v` to `g` and took `t` touches neither the program nor a trampoline in use. */
  lemma AllocKeeps(m: Mem, n: Mem, v: View, g: View, program: iset<int>, t: u32, newRegion: u32)
    requires AllocFrame(m, n, t, newRegion) && LiveSlotsOf(v) && Outside(g, program) && v.live == g.live
    requires g == v || (newRegion != 0 && g == Grown(v, newRegion))
    requires newRegion != 0 ==> RegionPlace(newRegion) && newRegion !in v.regions && newRegion in g.regions
    requires t != 0 ==> RegionOf(t) in g.regions && IsSlot(RegionOf(t), t) && t !in v.live
    ensures SameProgram(m, n, program) && SameTrampolines(m, n, v.live)
  {
    hide AllocFrame, Outside, IsSlot, RegionOf, FreshList;
    ProgramUntouched(m, n, g, program, t, newRegion);
    forall s | s in v.live ensures Agree(m, n, s, s + TRAMPOLINE_SIZE) {
      if t != 0 {
        SlotUntouched(m, n, g, t, s, newRegion);
      } else {
        NewUntouched(m, n, s, newRegion);
      }
    }
  }

  lemma NewUntouched(m: Mem, n: Mem, s: u32, newRegion: u32)
    requires AllocFrame(m, n, 0, newRegion) && IsSlot(RegionOf(s), s) && newRegion % REGION_SIZE == 0
    requires newRegion != 0 ==> RegionOf(s) != newRegion
    ensures Agree(m, n, s, s + TRAMPOLINE_SIZE)
  {
    SlotFacts(RegionOf(s), s);
    if newRegion != 0 { RegionsApart(RegionOf(s), newRegion); }
  }

  /** Returning `t` touches neither the program nor another trampoline in use. */
  lemma FreeKeeps(m: Mem, n: Mem, v: View, program: iset<int>, t: u32)
    requires AllocFrame(m, n, t, 0) && LiveSlotsOf(v) && Outside(v, program) && t in v.live && t != 0
    ensures SameProgram(m, n, program) && SameTrampolines(m, n, v.live - {t})
  {
    hide AllocFrame, Outside, IsSlot, RegionOf;
    ProgramUntouched(m, n, v, program, t, 0);
    forall s | s in v.live - {t} ensures Agree(m, n, s, s + TRAMPOLINE_SIZE) {
      SlotUntouched(m, n, v, t, s, 0);
    }
  }
}

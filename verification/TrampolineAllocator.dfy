/** The trampoline allocator: global lists over trampoline memory. */
module TrampolineAllocator {
  import opened Memory
  import opened X86Flow
  import opened X86Relocation
  import opened X86Trampoline
  import opened TrampolineHeap

  // ------------------------------------------------------------------------------ jump bounds

  function TwoGBBelow(a: int): int { if a > 0x7ff8_0000 then a - 0x7ff8_0000 else 0x8_0000 }

  function TwoGBAbove(a: int): int { if a < 0x8000_0000 then a + 0x7ff8_0000 else 0xfff8_0000 }

  /** detour_find_jmp_bounds: where a trampoline for `code` may lie. */
  function JmpBounds(m: Mem, code: int): (int, int)
  {
    var to := Wrap(code + 5 + Signed(Read32(m, code + 1), SPACE));
    if At(m, code) != 0xe9 then (TwoGBBelow(code), TwoGBAbove(code))
    else if to < code then (TwoGBBelow(code), TwoGBAbove(to))
    else (TwoGBBelow(to), TwoGBAbove(code))
  }

  predicate Near(a: int, b: int) { -0x7ff8_0000 <= a - b <= 0x7ff8_0000 }

  /** The bounds keep a trampoline within reach of the code and, when a long jump stands there, of the
      jump's destination too, and shut out no place in the middle of memory that is. */
  lemma BoundsNear(m: Mem, code: u32, t: int)
    requires |m| == SPACE && code + 5 <= SPACE
    ensures var jump := FlowAt(m, code);
            var near := Near(t, code) && (At(m, code) == 0xe9 ==> jump.Relative? && Near(t, jump.target));
            && (JmpBounds(m, code).0 <= t <= JmpBounds(m, code).1 ==> near)
            && (near && 0x8_0000 <= t <= 0xfff8_0000 ==> JmpBounds(m, code).0 <= t <= JmpBounds(m, code).1)
  {
    hide FlowAt, FlowFrom, Signed, Read32;
    if At(m, code) == 0xe9 { LongJump(m, code); }
  }

  lemma LongJump(m: Mem, s: nat)
    requires At(m, s) == 0xe9 && s + 5 <= |m|
    ensures FlowAt(m, s) == Relative(JumpKind, s + 5, Wrap(s + 5 + Signed(Read32(m, s + 1), SPACE)))
  {
    hide Signed, Read32;
    OpcodeForm(m, s, false, false);
    NearForm(m, s + 1, JumpKind);
  }

  // ------------------------------------------------------------------------------ new regions

  /** The free list of a new region: every trampoline from number `k` on. */
  function FreshList(r: int, k: nat): (s: seq<u32>)
    decreases TRAMPOLINES_PER_REGION - k
  {
    if k >= TRAMPOLINES_PER_REGION || Slot(r, k) < 0 || Slot(r, k) >= SPACE then []
    else [Slot(r, k)] + FreshList(r, k + 1)
  }

  lemma {:induction false} FreshMembers(r: u32, k: nat)
    requires RegionPlace(r) && 2 <= k <= TRAMPOLINES_PER_REGION
    ensures forall x :: x in FreshList(r, k) <==> IsSlot(r, x) && Slot(r, k) <= x
    ensures Distinct(FreshList(r, k))
    decreases TRAMPOLINES_PER_REGION - k
  {
    if k < TRAMPOLINES_PER_REGION {
      FreshMembers(r, k + 1);
      var rest := FreshList(r, k + 1);
      forall x | IsSlot(r, x) && Slot(r, k) <= x ensures x == Slot(r, k) || Slot(r, k + 1) <= x {
        assert IsSlot(r, Slot(r, k));
        if x != Slot(r, k) { SlotsApart(r, x, Slot(r, k)); }
      }
      assert FreshList(r, k) == [Slot(r, k)] + rest && Slot(r, k) !in rest;
    }
  }

  /** A region whose header and links were just written. */
  ghost predicate FreshRegion(m: Mem, r: u32)
  {
    RegionOk(m, r, FreshList(r, 2))
  }

  lemma {:induction false} ChainNext(m: Mem, head: int, list: seq<u32>, i: nat)
    requires RegionChain(m, head, list) && i < |list|
    ensures NextOf(m, list[i]) == if i + 1 < |list| then list[i + 1] else 0
    ensures i == 0 ==> head == list[0]
    decreases |list|
  {
    if i > 0 {
      ChainNext(m, NextOf(m, head), list[1..], i - 1);
    }
  }

  // ------------------------------------------------------------------------------ conservation

  ghost function SlotsFrom(r: int, k: nat): set<int>
    decreases TRAMPOLINES_PER_REGION - k
  {
    if k >= TRAMPOLINES_PER_REGION then {} else {Slot(r, k)} + SlotsFrom(r, k + 1)
  }

  lemma {:induction false} SlotCount(r: int, k: nat)
    requires 2 <= k <= TRAMPOLINES_PER_REGION
    ensures |SlotsFrom(r, k)| == TRAMPOLINES_PER_REGION - k
    ensures forall x :: x in SlotsFrom(r, k) <==> IsSlot(r, x) && Slot(r, k) <= x
    decreases TRAMPOLINES_PER_REGION - k
  {
    if k < TRAMPOLINES_PER_REGION {
      SlotCount(r, k + 1);
      assert Slot(r, k) !in SlotsFrom(r, k + 1);
      forall x | IsSlot(r, x) && Slot(r, k) <= x ensures x == Slot(r, k) || Slot(r, k + 1) <= x {
        assert IsSlot(r, Slot(r, k));
        if x != Slot(r, k) { SlotsApart(r, x, Slot(r, k)); }
      }
    }
  }

  ghost function Elements(s: seq<u32>): set<int> { set x | x in s }

  lemma {:induction false} DistinctCount(s: seq<u32>)
    requires Distinct(s)
    ensures |Elements(s)| == |s|
  {
    if s != [] {
      DistinctCount(s[1..]);
      assert Elements(s) == {s[0] as int} + Elements(s[1..]);
      assert s[0] !in s[1..];
    }
  }

  /** The trampolines of region `r` in use. */
  ghost function LiveIn(v: View, r: int): set<int> { set t | t in v.live && RegionOf(t) == r }

  lemma RegionFacts(m: Mem, pRegions: int, pRegion: int, v: View, r: u32)
    requires HeapOk(m, pRegions, pRegion, v) && r in v.regions
    ensures r in v.free && RegionOk(m, r, v.free[r]) && RegionPlace(r) && Distinct(v.free[r])
    ensures forall x :: x in v.free[r] ==> IsSlot(r, x)
    ensures forall x :: IsSlot(r, x) ==> (x in v.free[r] <==> x !in v.live)
    ensures forall t :: t in v.live && RegionOf(t) == r ==> IsSlot(r, t)
  {
    hide FreeChain, RegionChain, IsSlot;
    assert RegionOk(m, r, v.free[r]);
  }

  /** Conservation: in every region the free and the handed-out trampolines add up to all but two. */
  lemma Conservation(m: Mem, pRegions: int, pRegion: int, v: View, r: u32)
    requires HeapOk(m, pRegions, pRegion, v) && r in v.regions
    ensures |v.free[r]| + |LiveIn(v, r)| == TRAMPOLINES_PER_REGION - 2
  {
    hide HeapOk, RegionOk, FreeChain, RegionChain, IsSlot, Distinct, Slot;
    RegionFacts(m, pRegions, pRegion, v, r);
    SlotCount(r, 2);
    DistinctCount(v.free[r]);
    forall x | IsSlot(r, x) ensures RegionOf(x) == r && Slot(r, 2) <= x {
      SlotFacts(r, x);
      SlotFloor(r, x);
    }
    hide RegionOf, SlotsFrom;
    var all, free, live := SlotsFrom(r, 2), Elements(v.free[r]), LiveIn(v, r);
    assert free !! live;
    assert all == free + live by {
      forall x: int ensures x in all <==> x in free + live { }
    }
  }

  lemma SlotFloor(r: int, x: int)
    requires IsSlot(r, x)
    ensures Slot(r, 2) <= x
  {
  }

  /** What detour_is_region_empty tests. */
  ghost predicate LooksEmpty(m: Mem, r: int)
  {
    && Read32(m, r) == REGION_SIGNATURE
    && forall k :: 0 <= k < TRAMPOLINES_PER_REGION ==> LinkInside(m, r, k)
  }

  predicate LinkInside(m: Mem, r: int, k: int)
  {
    Link(m, Slot(r, k)) == 0 || r <= Link(m, Slot(r, k)) < r + REGION_SIZE
  }

  lemma {:induction false} FreeLinks(m: Mem, head: int, list: seq<u32>, x: u32)
    requires FreeChain(m, head, list) && x in list
    ensures Link(m, x) == 0 || Link(m, x) in list
    decreases |list|
  {
    if x == list[0] {
      if list[1..] != [] { assert Link(m, x) == list[1..][0]; }
    } else {
      FreeLinks(m, Link(m, head), list[1..], x);
    }
  }

  lemma SlotIndex(r: int, x: int) returns (k: nat)
    requires IsSlot(r, x)
    ensures 2 <= k < TRAMPOLINES_PER_REGION && x == Slot(r, k)
  {
    k := (x - r) / TRAMPOLINE_SIZE - 1;
  }

  lemma FreeLooksEmpty(m: Mem, r: u32, free: seq<u32>, k: nat)
    requires RegionOk(m, r, free) && k < TRAMPOLINES_PER_REGION
    requires k >= 2 ==> Slot(r, k) in free
    ensures LinkInside(m, r, k)
  {
    hide Read32, Distinct;
    if k >= 2 {
      var x := Slot(r, k);
      FreeLinks(m, HeadOf(m, r), free, x);
      if Link(m, x) in free { SlotFacts(r, Link(m, x)); }
    }
  }

  lemma LiveLooksUsed(m: Mem, r: int, t: int)
    requires r % REGION_SIZE == 0 && IsSlot(r, t)
    requires Link(m, t) != 0 && RegionOf(Link(m, t)) != RegionOf(t)
    ensures !LooksEmpty(m, r)
  {
    hide Link, RegionOf, IsSlot;
    SlotFacts(r, t);
    OtherRegionAddress(r, Link(m, t));
    var k := SlotIndex(r, t);
    assert !LinkInside(m, r, k);
  }

  lemma OtherRegionAddress(r: int, x: int)
    requires r % REGION_SIZE == 0 && RegionOf(x) != r
    ensures !(r <= x < r + REGION_SIZE)
  {
  }

  /** The emptiness test finds exactly the regions without a trampoline in use. */
  lemma EmptyMeansUnused(m: Mem, pRegions: int, pRegion: int, v: View, r: u32)
    requires HeapOk(m, pRegions, pRegion, v) && LiveOutside(m, v.live) && r in v.regions
    ensures LooksEmpty(m, r) <==> LiveIn(v, r) == {}
  {
    RegionFacts(m, pRegions, pRegion, v, r);
    assert Read32(m, r) == REGION_SIGNATURE;
    hide HeapOk, RegionOk, Link, Distinct, IsSlot, LinkInside, RegionOf, Read32;
    if t :| t in LiveIn(v, r) {
      LiveLooksUsed(m, r, t);
    }
    if LiveIn(v, r) == {} {
      forall k | 0 <= k < TRAMPOLINES_PER_REGION ensures LinkInside(m, r, k) {
        if k >= 2 {
          SlotOf(r, k);
          assert Slot(r, k) in v.live ==> Slot(r, k) in LiveIn(v, r);
        }
        FreeLooksEmpty(m, r, v.free[r], k);
      }
    }
  }

  lemma SlotOf(r: int, k: nat)
    requires 2 <= k < TRAMPOLINES_PER_REGION && r % REGION_SIZE == 0
    ensures IsSlot(r, Slot(r, k)) && RegionOf(Slot(r, k)) == r
  {
    SlotFacts(r, Slot(r, k));
  }

  // ------------------------------------------------------------------------------ the two steps

  ghost function PopView(v: View, r: u32): View
    requires r in v.free && v.free[r] != []
  {
    View(v.regions, v.free[r := v.free[r][1..]], v.live + {v.free[r][0]})
  }

  ghost function PushView(v: View, t: u32): View
    requires RegionOf(t) in v.free
  {
    View(v.regions, v.free[RegionOf(t) := [t] + v.free[RegionOf(t)]], v.live - {t})
  }

  /** The view with the new region `r`. */
  ghost function Grown(v: View, r: u32): View
  {
    View([r] + v.regions, v.free[r := FreshList(r, 2)], v.live)
  }

  lemma HeadMeansFree(m: Mem, pRegions: int, pRegion: int, v: View, r: u32)
    requires HeapOk(m, pRegions, pRegion, v) && r in v.regions
    ensures HeadOf(m, r) != 0 <==> v.free[r] != []
    ensures v.free[r] != [] ==> HeadOf(m, r) == v.free[r][0] && IsSlot(r, v.free[r][0])
  {
    RegionFacts(m, pRegions, pRegion, v, r);
    hide HeapOk, IsSlot;
    if v.free[r] != [] {
      FreeHead(m, r, v.free[r]);
      SlotFacts(r, v.free[r][0]);
    }
  }

  lemma PopPartition(m: Mem, pRegions: int, pRegion: int, v: View, r: u32)
    requires HeapOk(m, pRegions, pRegion, v) && r in v.regions && v.free[r] != []
    ensures Partition(PopView(v, r)) && v.free[r][0] !in v.live
  {
    RegionFacts(m, pRegions, pRegion, v, r);
    hide HeapOk, RegionOk, FreeChain, IsSlot, RegionOf;
    var t := v.free[r][0];
    SlotFacts(r, t);
    var w := PopView(v, r);
    assert Partition(v) by { PartitionOf(m, pRegions, pRegion, v); }
    forall q, x | q in w.regions && q in w.free && IsSlot(q, x)
      ensures x in w.free[q] <==> x !in w.live
    {
      if q != r && q in v.free { SlotRegion(m, pRegions, pRegion, v, q, x); }
    }
  }

  lemma PartitionOf(m: Mem, pRegions: int, pRegion: int, v: View)
    requires HeapOk(m, pRegions, pRegion, v)
    ensures Partition(v)
  {
  }

  lemma SlotRegion(m: Mem, pRegions: int, pRegion: int, v: View, q: u32, x: int)
    requires HeapOk(m, pRegions, pRegion, v) && q in v.regions && IsSlot(q, x)
    ensures RegionOf(x) == q
  {
    RegionFacts(m, pRegions, pRegion, v, q);
    SlotFacts(q, x);
  }

  lemma PushPartition(m: Mem, pRegions: int, pRegion: int, v: View, t: u32)
    requires HeapOk(m, pRegions, pRegion, v) && t in v.live
    ensures RegionOf(t) in v.regions && RegionOf(t) in v.free && IsSlot(RegionOf(t), t)
    ensures t !in v.free[RegionOf(t)]
    ensures Partition(PushView(v, t))
  {
    PartitionOf(m, pRegions, pRegion, v);
    var r := RegionOf(t);
    RegionFacts(m, pRegions, pRegion, v, r);
    hide HeapOk, RegionOk, FreeChain, IsSlot, RegionOf;
    var w := PushView(v, t);
    forall q, x | q in w.regions && q in w.free && IsSlot(q, x)
      ensures x in w.free[q] <==> x !in w.live
    {
      SlotRegion(m, pRegions, pRegion, v, q, x);
    }
  }

  lemma PopHeap(m: Mem, pRegions: int, pRegion: int, v: View, r: u32)
    requires HeapOk(m, pRegions, pRegion, v) && r in v.regions && v.free[r] != []
    ensures HeapOk(Popped(m, r), pRegions, pRegion, PopView(v, r))
    ensures forall a ::
              0 <= a < |m| && !(r + 8 <= a < r + 12) && !(v.free[r][0] <= a < v.free[r][0] + TRAMPOLINE_SIZE) ==>
                Popped(m, r)[a] == m[a]
    ensures forall a :: v.free[r][0] <= a < v.free[r][0] + TRAMPOLINE_SIZE && 0 <= a < |m| ==> Popped(m, r)[a] == 0xcc
  {
    RegionFacts(m, pRegions, pRegion, v, r);
    HeadMeansFree(m, pRegions, pRegion, v, r);
    PopPartition(m, pRegions, pRegion, v, r);
    SlotFacts(r, v.free[r][0]);
    assert |m| == SPACE;
    PopRegion(m, r, v.free[r]);
    PopOnly(m, r, v.free[r][0]);
    hide HeapOk, RegionOk, IsSlot, Partition, Popped, NextOf, HeadOf, RegionPlace;
    HeapFrame(m, Popped(m, r), pRegions, pRegion, v, PopView(v, r), r);
  }

  lemma PopOnly(m: Mem, r: u32, t: int)
    requires HeadOf(m, r) == t && r + 216 <= t && t + TRAMPOLINE_SIZE <= r + REGION_SIZE
    ensures Only(m, Popped(m, r), r, r + REGION_SIZE)
    ensures forall a :: 0 <= a < |m| && !(r + 8 <= a < r + 12) && !(t <= a < t + TRAMPOLINE_SIZE) ==>
                          Popped(m, r)[a] == m[a]
    ensures forall a :: t <= a < t + TRAMPOLINE_SIZE && 0 <= a < |m| ==> Popped(m, r)[a] == 0xcc
  {
    hide HeadOf, Link;
  }

  lemma PushOnly(m: Mem, r: int, t: int)
    requires r + 216 <= t && t + TRAMPOLINE_SIZE <= r + REGION_SIZE
    ensures Only(m, Pushed(m, r, t), r, r + REGION_SIZE)
    ensures forall a :: 0 <= a < |m| && !(r + 8 <= a < r + 12) && !(t <= a < t + TRAMPOLINE_SIZE) ==>
                          Pushed(m, r, t)[a] == m[a]
  {
    hide HeadOf, Link;
  }

  lemma PushHeap(m: Mem, pRegions: int, pRegion: int, v: View, t: u32)
    requires HeapOk(m, pRegions, pRegion, v) && t in v.live
    ensures RegionOf(t) in v.free && HeapOk(Pushed(m, RegionOf(t), t), pRegions, pRegion, PushView(v, t))
    ensures forall a ::
              0 <= a < |m| && !(RegionOf(t) + 8 <= a < RegionOf(t) + 12) && !(t <= a < t + TRAMPOLINE_SIZE) ==>
                Pushed(m, RegionOf(t), t)[a] == m[a]
  {
    var r := RegionOf(t);
    PushPartition(m, pRegions, pRegion, v, t);
    RegionFacts(m, pRegions, pRegion, v, r);
    SlotFacts(r, t);
    assert |m| == SPACE;
    PushRegion(m, r, t, v.free[r]);
    PushOnly(m, r, t);
    hide HeapOk, RegionOk, IsSlot, Partition, Pushed, NextOf, RegionOf;
    HeapFrame(m, Pushed(m, r, t), pRegions, pRegion, v, PushView(v, t), r);
  }

  /** Linking a finished new region in front of the list. */
  lemma GrowHeap(m: Mem, n: Mem, pRegions: int, v: View, r: u32)
    requires HeapOk(m, pRegions, 0, v) && RegionPlace(r) && r !in v.regions
    requires Only(m, n, r, r + REGION_SIZE) && FreshRegion(n, r) && NextOf(n, r) == pRegions
    ensures HeapOk(n, r, r, Grown(v, r))
  {
    var w := Grown(v, r);
    FreshMembers(r, 2);
    assert |n| == SPACE;
    GrownPartition(m, pRegions, v, r);
    hide IsSlot, RegionPlace, Only, Partition, NextOf, RegionOf;
    forall q | q in v.regions ensures q in v.free && RegionOk(n, q, v.free[q]) && NextOf(m, q) == NextOf(n, q) {
      OtherRegion(m, n, q, r, v.free[q]);
    }
    RegionChainFrame(m, n, pRegions, v.regions);
    assert w.regions[1..] == v.regions;
    hide RegionOk, FreshList;
    forall q | q in w.regions ensures q in w.free && RegionOk(n, q, w.free[q]) { }
  }

  lemma GrownPartition(m: Mem, pRegions: int, v: View, r: u32)
    requires HeapOk(m, pRegions, 0, v) && RegionPlace(r) && r !in v.regions
    ensures Partition(Grown(v, r))
  {
    var w := Grown(v, r);
    FreshMembers(r, 2);
    PartitionOf(m, pRegions, 0, v);
    hide HeapOk, IsSlot, RegionOf, FreshList;
    forall q, x | q in w.regions && q in w.free && IsSlot(q, x)
      ensures x in w.free[q] <==> x !in w.live
    {
      if q == r {
        SlotFacts(r, x);
        SlotFloor(r, x);
      }
    }
  }
}

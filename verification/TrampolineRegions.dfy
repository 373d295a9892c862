/** The allocator's operations, in place over the address space. */
module TrampolineRegions {
  import opened Memory
  import opened X86Trampoline
  import opened TrampolineHeap
  import opened TrampolineAllocator

  /** The head of `r`'s free list exists and lies within the jump bounds. */
  predicate Usable(m: Mem, r: int, lo: int, hi: int)
  {
    HeadOf(m, r) != 0 && lo <= HeadOf(m, r) <= hi
  }

  /** The first usable region of the list, 0 if there is none. */
  ghost function FirstUsable(m: Mem, regions: seq<u32>, lo: int, hi: int): u32
  {
    if regions == [] then 0
    else if Usable(m, regions[0], lo, hi) then regions[0]
    else FirstUsable(m, regions[1..], lo, hi)
  }

  /** The region a trampoline is taken from: the default region if it will do, else the first that
      will, else 0 (a new region is needed). */
  ghost function Choice(m: Mem, regions: seq<u32>, pRegion: u32, lo: int, hi: int): u32
  {
    var default := if pRegion == 0 && regions != [] then regions[0] else pRegion;
    if default != 0 && Usable(m, default, lo, hi) then default else FirstUsable(m, regions, lo, hi)
  }

  /** The trampoline the next allocation for `target` hands out, 0 if there is none. */
  ghost function NextTrampoline(m: Mem, regions: seq<u32>, pRegion: u32, target: nat, newRegion: u32): int
  {
    var (lo, hi) := JmpBounds(m, target);
    var from := Choice(m, regions, pRegion, lo, hi);
    if from != 0 then HeadOf(m, from)
    else if newRegion != 0 && lo <= Slot(newRegion, 2) <= hi then Slot(newRegion, 2)
    else 0
  }

  /** Bytes an allocation may write: a new region's, the trampoline's, its region's list head. */
  ghost predicate AllocFrame(m: Mem, n: Mem, t: int, newRegion: int)
  {
    && |m| == |n|
    && forall a :: 0 <= a < |m| && !AllocMayWrite(t, newRegion, a) ==> m[a] == n[a]
  }

  predicate AllocMayWrite(t: int, newRegion: int, a: int)
  {
    || (newRegion != 0 && newRegion <= a < newRegion + REGION_SIZE)
    || (t != 0 && (t <= a < t + TRAMPOLINE_SIZE || RegionOf(t) + 8 <= a < RegionOf(t) + 12))
  }

  ghost predicate Breakpoints(m: Mem, t: int)
  {
    forall a :: t <= a < t + TRAMPOLINE_SIZE && 0 <= a < |m| ==> m[a] == 0xcc
  }

  /** `after` is `before` with `t`, the head of its region's free list, handed out. */
  ghost predicate TakenFrom(before: View, after: View, t: u32)
  {
    && RegionOf(t) in before.regions && RegionOf(t) in before.free && before.free[RegionOf(t)] != []
    && t == before.free[RegionOf(t)][0] && after == PopView(before, RegionOf(t))
  }

  /** Words of the list links, which the sweep may rewrite. */
  ghost predicate InNextField(regions: seq<u32>, a: int)
  {
    exists r :: r in regions && r + OFF_NEXT <= a < r + OFF_FREE
  }

  /** Nothing but the links of the listed regions was rewritten. */
  ghost predicate OnlyLinks(m: Mem, n: Mem, regions: seq<u32>)
  {
    |m| == |n| == SPACE && forall a :: 0 <= a < SPACE && !InNextField(regions, a) ==> n[a] == m[a]
  }

  /** Regions that no trampoline in use belongs to are dropped from the list. */
  ghost function Kept(v: View, regions: seq<u32>): seq<u32>
  {
    if regions == [] then []
    else if LiveIn(v, regions[0]) == {} then Kept(v, regions[1..])
    else [regions[0]] + Kept(v, regions[1..])
  }

  lemma {:induction false} KeptSplit(v: View, a: seq<u32>, b: seq<u32>)
    ensures Kept(v, a + b) == Kept(v, a) + Kept(v, b)
  {
    if a == [] {
      assert a + b == b;
    } else {
      assert (a + b)[1..] == a[1..] + b;
      KeptSplit(v, a[1..], b);
    }
  }

  lemma {:induction false} KeptMembers(v: View, regions: seq<u32>)
    ensures forall r :: r in Kept(v, regions) <==> r in regions && LiveIn(v, r) != {}
    ensures Distinct(regions) ==> Distinct(Kept(v, regions))
  {
    if regions != [] {
      KeptMembers(v, regions[1..]);
      assert Distinct(regions) ==> Distinct(regions[1..]) && regions[0] !in regions[1..];
    }
  }

  lemma {:induction false} ChainSplit(m: Mem, head: int, a: seq<u32>, b: seq<u32>)
    requires RegionChain(m, head, a + b)
    ensures a == [] ==> RegionChain(m, head, b)
    ensures a != [] ==> head == a[0] && RegionChain(m, NextOf(m, a[|a| - 1]), b)
    decreases |a|
  {
    if a == [] {
      assert a + b == b;
    } else {
      assert (a + b)[1..] == a[1..] + b;
      ChainSplit(m, NextOf(m, head), a[1..], b);
    }
  }

  /** Re-aiming the last link of `a` at the list `b`. */
  lemma {:induction false} ChainJoin(m: Mem, n: Mem, head: int, a: seq<u32>, rest: seq<u32>, b: seq<u32>, to: int)
    requires a != [] && RegionChain(m, head, a + rest) && Distinct(a)
    requires forall i :: 0 <= i < |a| - 1 ==> NextOf(n, a[i]) == NextOf(m, a[i])
    requires NextOf(n, a[|a| - 1]) == to && RegionChain(n, to, b)
    ensures RegionChain(n, head, a + b)
    decreases |a|
  {
    hide NextOf;
    assert (a + rest)[1..] == a[1..] + rest && (a + b)[1..] == a[1..] + b;
    if |a| == 1 {
      assert a[1..] + b == b;
    } else {
      assert forall i :: 0 <= i < |a[1..]| - 1 ==> NextOf(n, a[1..][i]) == NextOf(n, a[i + 1]);
      ChainJoin(m, n, NextOf(m, head), a[1..], rest, b, to);
    }
  }

  lemma LinkStored(m: Mem, r: u32, x: u32, free: seq<u32>)
    requires |m| == SPACE && RegionOk(m, r, free)
    ensures RegionOk(Store32(m, r + OFF_NEXT, x), r, free)
    ensures NextOf(Store32(m, r + OFF_NEXT, x), r) == x
    ensures Only(m, Store32(m, r + OFF_NEXT, x), r + OFF_NEXT, r + OFF_FREE)
  {
    var n := Store32(m, r + OFF_NEXT, x);
    assert Only(m, n, r + OFF_NEXT, r + OFF_FREE);
    hide Store32, Only, FreeChain, Distinct, IsSlot, Read32, Link, HeadOf, NextOf, Slot;
    forall y | y in free ensures Link(m, y) == Link(n, y) {
      SlotFacts(r, y);
      NextStored(m, r, x, y);
    }
    ChainFrame(m, n, HeadOf(m, r), free);
    SlotRange(r, 0);
    SlotRange(r, 1);
    NextStored(m, r, x, Slot(r, 0));
    NextStored(m, r, x, Slot(r, 1));
  }

  /** Rewriting a region's next field changes no other word of the heap. */
  lemma NextStored(m: Mem, r: int, x: u32, t: int)
    requires 0 <= r && r + 12 <= |m| && r + 72 <= t
    ensures var n := Store32(m, r + OFF_NEXT, x);
            && NextOf(n, r) == x && Read32(n, r) == Read32(m, r) && HeadOf(n, r) == HeadOf(m, r)
            && Link(n, t) == Link(m, t)
  {
    hide Store, Store32, Read32;
    ReadStored(m, r + OFF_NEXT, x);
    ReadBeside32(m, r + OFF_NEXT, x, r);
    ReadBeside32(m, r + OFF_NEXT, x, r + OFF_FREE);
    ReadBeside32(m, r + OFF_NEXT, x, t + OFF_REMAIN);
  }

  class Heap {
    const space: AddressSpace
    var pRegions: u32
    var pRegion: u32
    ghost var view: View

    constructor (space: AddressSpace)
      requires space.Valid()
      ensures this.space == space && Valid() && view == View([], map[], {})
    {
      this.space := space;
      pRegions, pRegion := 0, 0;
      view := View([], map[], {});
    }

    ghost predicate Valid()
      reads this, space
    {
      HeapOk(space.b, pRegions, pRegion, view)
    }

    /** found_region: takes the head of the default region's list if it is within the bounds. */
    method Take(lo: int, hi: int) returns (t: u32)
      requires Valid() && pRegion != 0 && view.free[pRegion] != []
      modifies this`view, space
      ensures Valid()
      ensures lo <= old(view.free[pRegion][0]) <= hi ==>
                && t == old(view.free[pRegion][0]) && IsSlot(pRegion, t) && RegionOf(t) == pRegion && t != 0
                && view == PopView(old(view), pRegion) && space.b == Popped(old(space.b), pRegion)
                && AllocFrame(old(space.b), space.b, t, 0)
                && Breakpoints(space.b, t)
      ensures !(lo <= old(view.free[pRegion][0]) <= hi) ==> t == 0 && view == old(view) && space.b == old(space.b)
    {
      hide HeapOk, RegionOk, IsSlot, Popped, PopView, RegionOf, HeadOf, Link, Store, Store32, AllocFrame, Breakpoints;
      RegionKnown(space.b, pRegions, pRegion, view);
      HeadMeansFree(space.b, pRegions, pRegion, view, pRegion);
      RegionFacts(space.b, pRegions, pRegion, view, pRegion);
      t := HeadOf(space.b, pRegion);
      SlotFacts(pRegion, t);
      if t < lo || t > hi {
        return 0;
      }
      PopHeap(space.b, pRegions, pRegion, view, pRegion);
      PopForm(space.b, pRegion);
      PopFrame(space.b, pRegion, t);
      space.b := Store32(space.b, pRegion + OFF_FREE, Link(space.b, t));
      space.b := Store(space.b, t, Fill(TRAMPOLINE_SIZE, 0xcc));
      view := PopView(view, pRegion);
    }

    /** Writes the header of a region just obtained from the system. */
    method WriteHeader(r: u32)
      requires |space.b| == SPACE && RegionPlace(r)
      modifies this`pRegion, this`pRegions, space
      ensures pRegion == r && pRegions == r && FreshSoFar(old(space.b), space.b, r, old(pRegions))
    {
      HeaderWritten(space.b, r, pRegions);
      hide Store, Store32, Read32, Only, Slot, Link, NextOf;
      pRegion := r;
      space.b := Store(space.b, r, Fill(REGION_SIZE, 0)); // pages come zeroed
      space.b := Store32(space.b, r, REGION_SIGNATURE);
      space.b := Store32(space.b, r + OFF_FREE, 0);
      space.b := Store32(space.b, r + OFF_NEXT, pRegions);
      pRegions := r;
    }

    /** Puts a new region in front of the list, everything but its first two trampolines free. */
    method InitRegion(r: u32)
      requires Valid() && RegionPlace(r) && r !in view.regions && pRegion == 0
      modifies this, space
      ensures Valid() && pRegion == r && view == Grown(old(view), r)
      ensures Only(old(space.b), space.b, r, r + REGION_SIZE)
    {
      hide HeapOk, RegionOk, FreeChain, FreshList, FreshSoFar, IsSlot, Store, Store32, Only, Slot, RegionPlace;
      ghost var was, oldHead := space.b, pRegions;
      ListHead(space.b, pRegions, pRegion, view);
      WriteHeader(r);
      FreshDone(space.b, r);
      var pFree: u32 := 0;
      var i := TRAMPOLINES_PER_REGION - 1;
      while i > 1
        invariant 1 <= i < TRAMPOLINES_PER_REGION
        invariant FreshSoFar(was, space.b, r, oldHead) && FreeChain(space.b, pFree, FreshList(r, i + 1))
        invariant pRegions == r && pRegion == r && view == old(view)
      {
        PushFresh(was, space.b, r, i, pFree, oldHead);
        SlotRange(r, i);
        space.b := Store32(space.b, Slot(r, i) + OFF_REMAIN, pFree);
        pFree := Slot(r, i);
        i := i - 1;
      }
      FinishFresh(was, space.b, r, pFree, oldHead);
      space.b := Store32(space.b, r + OFF_FREE, pFree);
      GrowHeap(was, space.b, oldHead, view, r);
      view := Grown(view, r);
    }

    /** Makes the region to allocate from the default one, or leaves no default region. */
    method FindRegion(lo: int, hi: int)
      requires Valid()
      modifies this`pRegion
      ensures Valid() && pRegion == Choice(space.b, view.regions, old(pRegion), lo, hi)
      ensures pRegion != 0 ==> pRegion in view.free && view.free[pRegion] != [] && Usable(space.b, pRegion, lo, hi)
    {
      hide HeapOk, HeadOf, NextOf;
      ListHead(space.b, pRegions, pRegion, view);
      ghost var regions := view.regions;
      if pRegion == 0 && pRegions != 0 {
        DefaultRegion(space.b, pRegions, view);
        pRegion := pRegions;
      }
      if pRegion != 0 {
        RegionKnown(space.b, pRegions, pRegion, view);
        HeadMeansFree(space.b, pRegions, pRegion, view, pRegion);
        if Usable(space.b, pRegion, lo, hi) {
          return;
        }
      }
      ghost var k := 0;
      SetDefault(space.b, pRegions, pRegion, view, 0);
      pRegion := pRegions;
      assert regions[0..] == regions;
      while pRegion != 0
        invariant 0 <= k <= |regions| && pRegion == if k < |regions| then regions[k] else 0
        invariant Valid()
        invariant FirstUsable(space.b, regions, lo, hi) == FirstUsable(space.b, regions[k..], lo, hi)
        decreases |regions| - k
      {
        RegionKnown(space.b, pRegions, pRegion, view);
        HeadMeansFree(space.b, pRegions, pRegion, view, pRegion);
        if Usable(space.b, pRegion, lo, hi) {
          return;
        }
        NextRegion(space.b, pRegions, pRegion, view, k);
        assert regions[k..][1..] == regions[k + 1..];
        pRegion := NextOf(space.b, pRegion);
        k := k + 1;
      }
      assert regions[k..] == [];
    }

    /** detour_alloc_trampoline. `newRegion` is what the search for a new region would return, 0 if
        it finds none. */
    method AllocTrampoline(pbTarget: nat, newRegion: u32) returns (t: u32)
      requires Valid() && (newRegion != 0 ==> RegionPlace(newRegion) && newRegion !in view.regions)
      modifies this, space
      ensures Valid()
      ensures var (lo, hi) := JmpBounds(old(space.b), pbTarget);
              var from := Choice(old(space.b), old(view.regions), old(pRegion), lo, hi);
              var base := if from != 0 || newRegion == 0 then old(view) else Grown(old(view), newRegion);
              && (t != 0 <==> from != 0 || (newRegion != 0 && lo <= Slot(newRegion, 2) <= hi))
              && (t != 0 ==> RegionOf(t) == if from != 0 then from else newRegion)
              && (t == 0 ==> view == base)
              && (t != 0 ==> lo <= t <= hi && Breakpoints(space.b, t) && TakenFrom(base, view, t))
              && AllocFrame(old(space.b), space.b, t, if from == 0 then newRegion else 0)
      ensures t == NextTrampoline(old(space.b), old(view.regions), old(pRegion), pbTarget, newRegion)
    {
      hide HeapOk, RegionOk, IsSlot, Popped, PopView, RegionOf, Grown, FreshList, AllocFrame, JmpBounds, Slot,
        HeadOf, RegionPlace, Breakpoints, Choice;
      ghost var was := space.b;
      var (lo, hi) := JmpBounds(space.b, pbTarget);
      FrameRefl(was);
      FindRegion(lo, hi);
      if pRegion != 0 {
        RegionKnown(space.b, pRegions, pRegion, view);
        HeadMeansFree(space.b, pRegions, pRegion, view, pRegion);
        t := Take(lo, hi);
      } else if newRegion != 0 {
        InitRegion(newRegion);
        FreshHead(newRegion, old(view));
        ghost var mid := space.b;
        t := Take(lo, hi);
        FrameRefl(mid);
        FrameJoin(was, mid, space.b, t, newRegion);
      } else {
        t := 0;
      }
    }

    /** detour_free_trampoline */
    method FreeTrampoline(t: u32)
      requires Valid() && t in view.live
      modifies this`view, space
      ensures Valid() && RegionOf(t) in old(view.free) && view == PushView(old(view), t)
      ensures space.b == Pushed(old(space.b), RegionOf(t), t)
      ensures AllocFrame(old(space.b), space.b, t, 0)
    {
      ghost var was := space.b;
      PushHeap(space.b, pRegions, pRegion, view, t);
      TrampolineSpot(space.b, pRegions, pRegion, view, t);
      hide HeapOk;
      var r := RegionOf(t);
      space.b := Store(space.b, t, Fill(TRAMPOLINE_SIZE, 0));
      space.b := Store32(space.b, t + OFF_REMAIN, HeadOf(space.b, r));
      space.b := Store32(space.b, r + OFF_FREE, t);
      assert space.b == Pushed(was, r, t);
      view := PushView(view, t);
    }

    /** detour_is_region_empty: of a region on the list, whether none of its trampolines is in use. */
    method IsRegionEmpty(r: u32) returns (empty: bool)
      ensures empty <==> LooksEmpty(space.b, r)
      ensures Valid() && LiveOutside(space.b, view.live) && r in view.regions ==> (empty <==> LiveIn(view, r) == {})
    {
      hide Read32, LinkInside, HeapOk, LiveOutside, LiveIn;
      if Valid() && LiveOutside(space.b, view.live) && r in view.regions {
        EmptyMeansUnused(space.b, pRegions, pRegion, view, r);
      }
      if Read32(space.b, r) != REGION_SIGNATURE {
        return false;
      }
      var i := 0;
      while i < TRAMPOLINES_PER_REGION
        invariant 0 <= i <= TRAMPOLINES_PER_REGION
        invariant forall k :: 0 <= k < i ==> LinkInside(space.b, r, k)
      {
        if !LinkInside(space.b, r, i) {
          return false;
        }
        i := i + 1;
      }
      empty := true;
    }

    /** Takes region `r` off the list; `prev` is the region before it, 0 if it is the first. */
    method Unlink(prev: u32, next: u32, ghost kept: seq<u32>, ghost r: u32, ghost rest: seq<u32>)
      requires Valid() && LiveOutside(space.b, view.live)
      requires view.regions == kept + ([r] + rest) && LiveIn(view, r) == {}
      requires prev == (if kept == [] then 0 else kept[|kept| - 1]) && next == NextOf(space.b, r)
      modifies this, space
      ensures Valid() && LiveOutside(space.b, view.live)
      ensures view == old(view).(regions := kept + rest) && pRegion == 0
      ensures OnlyLinks(old(space.b), space.b, kept)
    {
      Unlinked(space.b, pRegions, pRegion, view, kept, r, rest);
      ListHead(space.b, pRegions, pRegion, view);
      hide HeapOk, LiveOutside, LiveIn, Store32, NextOf;
      assert kept != [] ==> kept[|kept| - 1] == view.regions[|kept| - 1] && kept[|kept| - 1] in kept;
      if prev == 0 {
        pRegions := next;
      } else {
        space.b := Store32(space.b, prev + OFF_NEXT, next);
      }
      pRegion := 0;
      view := view.(regions := kept + rest);
    }

    /** detour_free_unused_trampoline_regions: exactly the regions without a trampoline in use leave
        the list, in place, and the default region is forgotten if any did. */
    method FreeUnusedTrampolineRegions()
      requires Valid() && LiveOutside(space.b, view.live)
      modifies this, space
      ensures Valid() && LiveOutside(space.b, view.live)
      ensures view.regions == Kept(old(view), old(view.regions))
      ensures view.free == old(view.free) && view.live == old(view.live)
      ensures pRegion == if view.regions == old(view.regions) then old(pRegion) else 0
      ensures OnlyLinks(old(space.b), space.b, view.regions)
    {
      hide OnlyLinks, HeapOk, LooksEmpty, LiveIn, LiveOutside, Kept, Distinct, NextOf, Link, InNextField;
      ghost var m, v := space.b, view;
      ghost var done, todo := [], view.regions;
      ghost var kept: seq<u32> := [];
      var prev: u32 := 0;
      var r := pRegions;
      assert [] + view.regions == view.regions;
      ListHead(space.b, pRegions, pRegion, view);
      OnlyLinksRefl(m, []);
      KeptNone(v);
      while r != 0
        invariant v.regions == done + todo && kept == Kept(v, done) && view.regions == kept + todo
        invariant view.free == v.free && view.live == v.live
        invariant Valid() && LiveOutside(space.b, view.live)
        invariant prev == if kept == [] then 0 else kept[|kept| - 1]
        invariant r == (if todo == [] then 0 else todo[0]) && forall i :: 0 <= i < |todo| ==> todo[i] > 0
        invariant pRegion == if |kept| == |done| then old(pRegion) else 0
        invariant |kept| <= |done|
        invariant OnlyLinks(m, space.b, kept)
        decreases |todo|
      {
        ghost var rest := todo[1..];
        assert done + todo == (done + [r]) + rest && kept + todo == (kept + [r]) + rest
               && kept + todo == kept + ([r] + rest);
        SweepStep(space.b, pRegions, pRegion, view, v, done, kept, r, rest);
        var empty := IsRegionEmpty(r);
        var next := NextOf(space.b, r);
        if empty {
          ghost var n := space.b;
          Unlink(prev, next, kept, r, rest);
          OnlyLinksTrans(m, n, space.b, kept);
        } else {
          prev := r;
          OnlyLinksGrow(m, space.b, kept, r);
          kept := kept + [r];
        }
        r := next;
        done, todo := done + [todo[0]], rest;
      }
      assert done == v.regions && view.regions == kept;
      KeptSize(v, v.regions);
    }
  }

  lemma NextFieldsGrow(kept: seq<u32>, r: u32)
    ensures forall a :: InNextField(kept, a) ==> InNextField(kept + [r], a)
  {
    forall a | InNextField(kept, a) ensures InNextField(kept + [r], a) {
      var q :| q in kept && q + OFF_NEXT <= a < q + OFF_FREE;
      assert q in kept + [r];
    }
  }

  lemma OnlyLinksGrow(m: Mem, n: Mem, kept: seq<u32>, r: u32)
    requires OnlyLinks(m, n, kept)
    ensures OnlyLinks(m, n, kept + [r])
  {
    hide InNextField;
    NextFieldsGrow(kept, r);
  }

  lemma OnlyLinksTrans(m: Mem, n: Mem, p: Mem, kept: seq<u32>)
    requires OnlyLinks(m, n, kept) && OnlyLinks(n, p, kept)
    ensures OnlyLinks(m, p, kept)
  {
    hide InNextField;
  }

  lemma OnlyLinksRefl(m: Mem, kept: seq<u32>)
    requires |m| == SPACE
    ensures OnlyLinks(m, m, kept)
  {
    hide InNextField;
  }

  lemma PopFrame(m: Mem, r: u32, t: u32)
    requires HeadOf(m, r) == t && RegionOf(t) == r && t != 0
    requires r + 216 <= t && t + TRAMPOLINE_SIZE <= r + REGION_SIZE
    ensures AllocFrame(m, Popped(m, r), t, 0) && Breakpoints(Popped(m, r), t)
  {
    PopOnly(m, r, t);
    hide HeadOf, RegionOf, Popped;
  }

  lemma PopForm(m: Mem, r: int)
    ensures Popped(m, r) ==
            Store(Store32(m, r + OFF_FREE, Link(m, HeadOf(m, r))), HeadOf(m, r), Fill(TRAMPOLINE_SIZE, 0xcc))
  {
  }

  // ------------------------------------------------------------------------------ proof steps

  lemma SlotRange(r: u32, i: int)
    requires RegionPlace(r) && 0 <= i < TRAMPOLINES_PER_REGION
    ensures r + TRAMPOLINE_SIZE <= Slot(r, i) && Slot(r, i) + TRAMPOLINE_SIZE <= r + REGION_SIZE && Slot(r, i) < SPACE
  {
  }

  /** The header of a new region `r` is written, its first two trampolines unlinked, and nothing
      outside it changed. */
  ghost predicate FreshSoFar(was: Mem, m: Mem, r: int, next: u32)
  {
    && |m| == SPACE && Only(was, m, r, r + REGION_SIZE)
    && Read32(m, r) == REGION_SIGNATURE && NextOf(m, r) == next
    && Link(m, Slot(r, 0)) == 0 && Link(m, Slot(r, 1)) == 0
  }

  lemma HeaderWritten(was: Mem, r: u32, next: u32)
    requires |was| == SPACE && RegionPlace(r)
    ensures var n := Store32(Store32(Store32(Store(was, r, Fill(REGION_SIZE, 0)), r, REGION_SIGNATURE),
                                     r + OFF_FREE, 0), r + OFF_NEXT, next);
            FreshSoFar(was, n, r, next)
  {
    ZeroedRegion(was, r);
    SlotRange(r, 0);
    SlotRange(r, 1);
    HeaderWords(Store(was, r, Fill(REGION_SIZE, 0)), r, next);
    hide Store, Store32, Read32, Link, NextOf, Only;
    var zero := Store(was, r, Fill(REGION_SIZE, 0));
    var signed := Store32(zero, r, REGION_SIGNATURE);
    var emptied := Store32(signed, r + OFF_FREE, 0);
    var n := Store32(emptied, r + OFF_NEXT, next);
    StoredInside(zero, r, REGION_SIGNATURE, r);
    StoredInside(signed, r + OFF_FREE, 0, r);
    StoredInside(emptied, r + OFF_NEXT, next, r);
    OnlyTrans(was, zero, signed, r, r + REGION_SIZE, r, r + REGION_SIZE);
    OnlyTrans(was, signed, emptied, r, r + REGION_SIZE, r, r + REGION_SIZE);
    OnlyTrans(was, emptied, n, r, r + REGION_SIZE, r, r + REGION_SIZE);
  }

  lemma HeaderWords(zero: Mem, r: u32, next: u32)
    requires |zero| == SPACE && RegionPlace(r)
    requires Link(zero, Slot(r, 0)) == 0 && Link(zero, Slot(r, 1)) == 0
    ensures var n := Store32(Store32(Store32(zero, r, REGION_SIGNATURE), r + OFF_FREE, 0), r + OFF_NEXT, next);
            && Read32(n, r) == REGION_SIGNATURE && NextOf(n, r) == next
            && Link(n, Slot(r, 0)) == 0 && Link(n, Slot(r, 1)) == 0
  {
    SlotRange(r, 0);
    SlotRange(r, 1);
    hide Store32, Read32, Link, NextOf, HeadOf, Slot;
    var signed := Store32(zero, r, REGION_SIGNATURE);
    var emptied := Store32(signed, r + OFF_FREE, 0);
    StoredSize(signed, r + OFF_FREE, 0);
    forall k | k == 0 || k == 1
      ensures Link(Store32(emptied, r + OFF_NEXT, next), Slot(r, k)) == 0
      ensures Read32(Store32(emptied, r + OFF_NEXT, next), r) == REGION_SIGNATURE
      ensures NextOf(Store32(emptied, r + OFF_NEXT, next), r) == next
    {
      SignatureStored(zero, r, Slot(r, k));
      HeadStored(signed, r, 0, Slot(r, k));
      NextStored(emptied, r, next, Slot(r, k));
    }
    assert Link(Store32(emptied, r + OFF_NEXT, next), Slot(r, 0)) == 0;
  }

  lemma StoredInside(m: Mem, a: int, x: int, r: int)
    requires r <= a && a + 4 <= r + REGION_SIZE
    ensures Only(m, Store32(m, a, x), r, r + REGION_SIZE) && |Store32(m, a, x)| == |m|
  {
  }

  lemma ZeroedRegion(was: Mem, r: u32)
    requires |was| == SPACE && RegionPlace(r)
    ensures var zero := Store(was, r, Fill(REGION_SIZE, 0));
            |zero| == SPACE && Only(was, zero, r, r + REGION_SIZE) && Link(zero, Slot(r, 0)) == 0
            && Link(zero, Slot(r, 1)) == 0
  {
    hide Store, Slot, Read32, Fill, Only;
    var zero := Store(was, r, Fill(REGION_SIZE, 0));
    ZeroBytes(was, r);
    SlotRange(r, 0);
    SlotRange(r, 1);
    ReadZero(zero, Slot(r, 0) + OFF_REMAIN);
    ReadZero(zero, Slot(r, 1) + OFF_REMAIN);
  }

  lemma ZeroBytes(was: Mem, r: u32)
    requires |was| == SPACE && RegionPlace(r)
    ensures var zero := Store(was, r, Fill(REGION_SIZE, 0));
            Only(was, zero, r, r + REGION_SIZE) && forall a :: r <= a < r + REGION_SIZE ==> At(zero, a) == 0
  {
  }

  lemma SignatureStored(m: Mem, r: int, t: int)
    requires 0 <= r && r + 12 <= |m| && r + 72 <= t
    ensures var n := Store32(m, r, REGION_SIGNATURE);
            Read32(n, r) == REGION_SIGNATURE && Link(n, t) == Link(m, t) && |n| == |m|
  {
    hide Store, Read32;
    ReadStored(m, r, REGION_SIGNATURE);
    ReadBeside32(m, r, REGION_SIGNATURE, t + OFF_REMAIN);
  }

  lemma FreshDone(m: Mem, r: u32)
    ensures FreeChain(m, 0, FreshList(r, TRAMPOLINES_PER_REGION))
  {
  }

  lemma PushFresh(was: Mem, m: Mem, r: u32, i: nat, pFree: u32, next: u32)
    requires RegionPlace(r) && 2 <= i < TRAMPOLINES_PER_REGION
    requires FreshSoFar(was, m, r, next) && FreeChain(m, pFree, FreshList(r, i + 1))
    ensures var n := Store32(m, Slot(r, i) + OFF_REMAIN, pFree);
            FreshSoFar(was, n, r, next) && FreeChain(n, Slot(r, i), FreshList(r, i))
  {
    hide Store32, Only, Read32, IsSlot, FreshList, Link, FreeChain, Slot, HeadOf, NextOf;
    var t := Slot(r, i);
    var n := Store32(m, t + OFF_REMAIN, pFree);
    SlotRange(r, i);
    ReservedBelow(r, i);
    LinkWritten(m, r, t, pFree, Slot(r, 0));
    LinkWritten(m, r, t, pFree, Slot(r, 1));
    FreshMembers(r, i + 1);
    forall x | x in FreshList(r, i + 1) ensures Link(m, x) == Link(n, x) {
      SlotAbove(r, i, x);
      LinkWritten(m, r, t, pFree, x);
    }
    ChainFrame(m, n, pFree, FreshList(r, i + 1));
    FreshCons(r, i);
    FreeChainCons(n, t, FreshList(r, i + 1));
    StoredInside(m, t + OFF_REMAIN, pFree, r);
    OnlyTrans(was, m, n, r, r + REGION_SIZE, r, r + REGION_SIZE);
  }

  lemma ReservedBelow(r: int, i: nat)
    requires 2 <= i
    ensures Slot(r, 0) + TRAMPOLINE_SIZE <= Slot(r, i) && Slot(r, 1) + TRAMPOLINE_SIZE <= Slot(r, i)
    ensures r + 12 <= Slot(r, i) + OFF_REMAIN
  {
  }

  /** Rewriting one trampoline's link changes no other word of the heap. */
  lemma LinkWritten(m: Mem, r: int, t: int, x: u32, y: int)
    requires 0 <= r && r + 12 <= t && t + TRAMPOLINE_SIZE <= |m|
    requires y + TRAMPOLINE_SIZE <= t || t + TRAMPOLINE_SIZE <= y
    ensures var n := Store32(m, t + OFF_REMAIN, x);
            && Link(n, t) == x && Link(n, y) == Link(m, y) && |n| == |m|
            && Read32(n, r) == Read32(m, r) && NextOf(n, r) == NextOf(m, r)
  {
    hide Store, Read32;
    ReadStored(m, t + OFF_REMAIN, x);
    ReadBeside32(m, t + OFF_REMAIN, x, y + OFF_REMAIN);
    ReadBeside32(m, t + OFF_REMAIN, x, r);
    ReadBeside32(m, t + OFF_REMAIN, x, r + OFF_NEXT);
  }

  lemma SlotAbove(r: int, i: nat, x: int)
    requires IsSlot(r, x) && Slot(r, i + 1) <= x
    ensures Slot(r, i) + TRAMPOLINE_SIZE <= x
  {
  }

  lemma FreshCons(r: u32, i: nat)
    requires RegionPlace(r) && i < TRAMPOLINES_PER_REGION
    ensures 0 <= Slot(r, i) < SPACE && FreshList(r, i) == [Slot(r, i)] + FreshList(r, i + 1)
  {
    SlotRange(r, i);
  }

  lemma OnlyTrans(m: Mem, n: Mem, p: Mem, lo: int, hi: int, lo': int, hi': int)
    requires Only(m, n, lo, hi) && Only(n, p, lo', hi') && lo <= lo' && hi' <= hi
    ensures Only(m, p, lo, hi)
  {
  }

  lemma FinishFresh(was: Mem, m: Mem, r: u32, pFree: u32, next: u32)
    requires RegionPlace(r) && FreshSoFar(was, m, r, next) && FreeChain(m, pFree, FreshList(r, 2))
    ensures var n := Store32(m, r + OFF_FREE, pFree);
            Only(was, n, r, r + REGION_SIZE) && FreshRegion(n, r) && NextOf(n, r) == next
  {
    var n := Store32(m, r + OFF_FREE, pFree);
    assert Only(m, n, r + OFF_FREE, r + 12);
    FreshMembers(r, 2);
    hide Store32, Only, Read32, IsSlot, FreshList, FreeChain, Distinct, Link;
    HeadStored(m, r, pFree, Slot(r, 0));
    HeadStored(m, r, pFree, Slot(r, 1));
    forall x | x in FreshList(r, 2) ensures Link(m, x) == Link(n, x) {
      SlotFacts(r, x);
      HeadStored(m, r, pFree, x);
    }
    ChainFrame(m, n, pFree, FreshList(r, 2));
    OnlyTrans(was, m, n, r, r + REGION_SIZE, r + OFF_FREE, r + 12);
  }

  lemma FrameRefl(m: Mem)
    ensures AllocFrame(m, m, 0, 0)
  {
  }

  lemma FrameJoin(was: Mem, mid: Mem, n: Mem, t: int, newRegion: int)
    requires newRegion != 0 && Only(was, mid, newRegion, newRegion + REGION_SIZE)
             && (AllocFrame(mid, n, t, 0) || mid == n)
    ensures AllocFrame(was, n, t, newRegion)
  {
    hide RegionOf;
  }

  lemma ListHead(m: Mem, pRegions: int, pRegion: int, v: View)
    requires HeapOk(m, pRegions, pRegion, v)
    ensures pRegions == if v.regions == [] then 0 else v.regions[0]
    ensures |m| == SPACE && forall i :: 0 <= i < |v.regions| ==> v.regions[i] > 0
  {
    hide FreeChain, IsSlot, Distinct, Partition;
    forall i | 0 <= i < |v.regions| ensures v.regions[i] > 0 { assert RegionOk(m, v.regions[i], v.free[v.regions[i]]); }
  }

  lemma SetDefault(m: Mem, pRegions: int, pRegion: int, v: View, other: int)
    requires HeapOk(m, pRegions, pRegion, v)
    ensures HeapOk(m, pRegions, 0, v) && HeapOk(m, pRegions, pRegions, v)
  {
    ListHead(m, pRegions, pRegion, v);
    hide RegionOk, RegionChain, Distinct, Partition;
  }

  lemma DefaultRegion(m: Mem, pRegions: int, v: View)
    requires HeapOk(m, pRegions, 0, v)
    ensures HeapOk(m, pRegions, pRegions, v)
  {
    SetDefault(m, pRegions, 0, v, 0);
  }

  lemma RegionKnown(m: Mem, pRegions: int, pRegion: int, v: View)
    requires HeapOk(m, pRegions, pRegion, v) && pRegion != 0
    ensures pRegion in v.regions && pRegion in v.free
  {
    hide RegionOk, RegionChain, Distinct, Partition;
  }

  lemma NextRegion(m: Mem, pRegions: int, pRegion: int, v: View, k: nat)
    requires HeapOk(m, pRegions, pRegion, v) && k < |v.regions| && pRegion == v.regions[k]
    ensures NextOf(m, pRegion) == if k + 1 < |v.regions| then v.regions[k + 1] else 0
    ensures HeapOk(m, pRegions, NextOf(m, pRegion), v)
  {
    ChainNext(m, pRegions, v.regions, k);
    hide RegionOk, RegionChain, Distinct, Partition, NextOf;
  }

  lemma FreshHead(r: u32, v: View)
    requires RegionPlace(r)
    ensures r in Grown(v, r).regions && r in Grown(v, r).free && Grown(v, r).free[r] != []
    ensures Grown(v, r).free[r][0] == Slot(r, 2) && RegionOf(Slot(r, 2)) == r
  {
    FreshCons(r, 2);
    SlotOf(r, 2);
  }

  lemma TrampolineSpot(m: Mem, pRegions: int, pRegion: int, v: View, t: u32)
    requires HeapOk(m, pRegions, pRegion, v) && t in v.live
    ensures RegionOf(t) in v.regions && IsSlot(RegionOf(t), t) && t != 0
    ensures 0 <= RegionOf(t) && RegionOf(t) + 216 <= t && t + TRAMPOLINE_SIZE <= SPACE
  {
    PushPartition(m, pRegions, pRegion, v, t);
    var r := RegionOf(t);
    RegionFacts(m, pRegions, pRegion, v, r);
    hide HeapOk, RegionOk;
    SlotFacts(r, t);
  }

  lemma KeptNone(v: View)
    ensures Kept(v, []) == []
  {
  }

  lemma SameLive(v: View, w: View, r: int)
    requires v.live == w.live
    ensures LiveIn(v, r) == LiveIn(w, r)
  {
  }

  lemma KeptNext(v: View, done: seq<u32>, r: u32)
    ensures Kept(v, done + [r]) == if LiveIn(v, r) == {} then Kept(v, done) else Kept(v, done) + [r]
  {
    KeptSplit(v, done, [r]);
    assert [r][1..] == [];
  }

  lemma {:induction false} KeptSize(v: View, regions: seq<u32>)
    ensures |Kept(v, regions)| <= |regions|
    ensures |Kept(v, regions)| == |regions| <==> Kept(v, regions) == regions
  {
    if regions != [] { KeptSize(v, regions[1..]); }
  }

  lemma NextInList(m: Mem, pRegions: int, pRegion: int, v: View, kept: seq<u32>, r: u32, rest: seq<u32>)
    requires HeapOk(m, pRegions, pRegion, v) && v.regions == kept + ([r] + rest)
    ensures NextOf(m, r) == if rest == [] then 0 else rest[0]
  {
    ChainNext(m, pRegions, v.regions, |kept|);
  }

  /** What one turn of the sweep needs to know about the region it looks at. */
  lemma SweepStep(m: Mem, pRegions: int, pRegion: int, w: View, v: View, done: seq<u32>, kept: seq<u32>, r: u32,
                  rest: seq<u32>)
    requires HeapOk(m, pRegions, pRegion, w) && LiveOutside(m, w.live) && w.live == v.live
    requires w.regions == kept + ([r] + rest)
    ensures LooksEmpty(m, r) <==> LiveIn(v, r) == {}
    ensures LiveIn(w, r) == LiveIn(v, r)
    ensures Kept(v, done + [r]) == if LiveIn(v, r) == {} then Kept(v, done) else Kept(v, done) + [r]
    ensures NextOf(m, r) == if rest == [] then 0 else rest[0]
  {
    hide HeapOk, LiveOutside, LooksEmpty, Kept, NextOf;
    assert r == w.regions[|kept|];
    EmptyMeansUnused(m, pRegions, pRegion, w, r);
    SameLive(w, v, r);
    KeptNext(v, done, r);
    NextInList(m, pRegions, pRegion, w, kept, r, rest);
  }

  lemma RestPartition(v: View, kept: seq<u32>, r: u32, rest: seq<u32>)
    requires Partition(v) && v.regions == kept + ([r] + rest) && LiveIn(v, r) == {}
    ensures Partition(v.(regions := kept + rest))
  {
    hide IsSlot, RegionOf;
    forall t | t in v.live ensures RegionOf(t) in kept + rest {
      assert RegionOf(t) == r ==> t in LiveIn(v, r);
    }
  }

  lemma Unlinked(m: Mem, pRegions: u32, pRegion: u32, v: View, kept: seq<u32>, r: u32, rest: seq<u32>)
    requires HeapOk(m, pRegions, pRegion, v) && LiveOutside(m, v.live)
    requires v.regions == kept + ([r] + rest) && LiveIn(v, r) == {}
    ensures kept == [] ==> HeapOk(m, NextOf(m, r), 0, v.(regions := kept + rest))
    ensures kept != [] ==> var n := Store32(m, kept[|kept| - 1] + OFF_NEXT, NextOf(m, r));
                           && HeapOk(n, pRegions, 0, v.(regions := kept + rest)) && LiveOutside(n, v.live)
                           && Only(m, n, kept[|kept| - 1] + OFF_NEXT, kept[|kept| - 1] + OFF_FREE)
  {
    RestPartition(v, kept, r, rest);
    ChainSplit(m, pRegions, kept, [r] + rest);
    assert ([r] + rest)[1..] == rest;
    assert Distinct(kept + rest) by { DistinctRest(kept, r, rest); }
    if kept == [] {
      assert kept + rest == rest;
      hide RegionOk, Partition, Distinct, LiveIn;
    } else {
      UnlinkedMiddle(m, pRegions, pRegion, v, kept, r, rest);
    }
  }

  lemma DistinctRest(kept: seq<u32>, r: u32, rest: seq<u32>)
    requires Distinct(kept + ([r] + rest))
    ensures Distinct(kept + rest) && Distinct(kept)
    ensures forall i, x :: 0 <= i < |kept| && x in rest ==> kept[i] != x
  {
    var s := kept + ([r] + rest);
    assert forall i :: 0 <= i < |kept| ==> s[i] == kept[i];
    assert forall i :: 0 <= i < |rest| ==> s[|kept| + 1 + i] == rest[i];
    var u := kept + rest;
    forall i, j | 0 <= i < j < |u| ensures u[i] != u[j] {
      assert u[i] == s[if i < |kept| then i else i + 1] && u[j] == s[if j < |kept| then j else j + 1];
    }
  }

  lemma UnlinkedMiddle(m: Mem, pRegions: u32, pRegion: u32, v: View, kept: seq<u32>, r: u32, rest: seq<u32>)
    requires HeapOk(m, pRegions, pRegion, v) && LiveOutside(m, v.live)
    requires v.regions == kept + ([r] + rest) && kept != []
    requires Partition(v.(regions := kept + rest))
    ensures var n := Store32(m, kept[|kept| - 1] + OFF_NEXT, NextOf(m, r));
            && HeapOk(n, pRegions, 0, v.(regions := kept + rest)) && LiveOutside(n, v.live)
            && Only(m, n, kept[|kept| - 1] + OFF_NEXT, kept[|kept| - 1] + OFF_FREE)
  {
    hide HeapOk, Store32, Partition, LiveOutside, Read32, RegionPlace, RegionOk, Only, NextOf;
    var last := kept[|kept| - 1];
    var to := NextOf(m, r);
    var n := Store32(m, last + OFF_NEXT, to);
    HeapParts(m, pRegions, pRegion, v);
    DistinctRest(kept, r, rest);
    ChainSplit(m, pRegions, kept, [r] + rest);
    assert ([r] + rest)[1..] == rest && RegionChain(m, to, rest);
    assert last == v.regions[|kept| - 1];
    LinkStored(m, last, to, v.free[last]);
    OnlyInRegion(m, n, last);
    LiveLinks(m, n, pRegions, pRegion, v, last);
    OthersKept(m, n, pRegions, pRegion, v, last);
    forall q | q in rest ensures NextOf(m, q) == NextOf(n, q) { assert q in v.regions && q != last; }
    RegionChainFrame(m, n, to, rest);
    forall i | 0 <= i < |kept| - 1 ensures NextOf(n, kept[i]) == NextOf(m, kept[i]) {
      assert kept[i] == v.regions[i] && kept[i] != last;
    }
    ChainJoin(m, n, pRegions, kept, [r] + rest, rest, to);
    StoredSize(m, last + OFF_NEXT, to);
    HeapOf(n, pRegions, v.(regions := kept + rest));
  }

  lemma HeapParts(m: Mem, pRegions: int, pRegion: int, v: View)
    requires HeapOk(m, pRegions, pRegion, v)
    ensures |m| == SPACE && RegionChain(m, pRegions, v.regions) && Distinct(v.regions)
    ensures forall r :: r in v.regions ==> r in v.free && RegionOk(m, r, v.free[r]) && RegionPlace(r)
  {
    hide FreeChain, RegionChain, Distinct, Partition, Read32, IsSlot, RegionPlace;
    forall r | r in v.regions ensures RegionPlace(r) { assert RegionOk(m, r, v.free[r]); }
  }

  lemma HeapOf(m: Mem, pRegions: int, v: View)
    requires |m| == SPACE && RegionChain(m, pRegions, v.regions) && Distinct(v.regions) && Partition(v)
    requires forall r :: r in v.regions ==> r in v.free && RegionOk(m, r, v.free[r])
    ensures HeapOk(m, pRegions, 0, v)
  {
    hide RegionOk, RegionChain, Distinct, Partition;
  }

  lemma OthersKept(m: Mem, n: Mem, pRegions: int, pRegion: int, v: View, last: u32)
    requires HeapOk(m, pRegions, pRegion, v) && last in v.regions && Only(m, n, last, last + REGION_SIZE)
    ensures forall q :: q in v.regions && q != last ==> RegionOk(n, q, v.free[q]) && NextOf(n, q) == NextOf(m, q)
  {
    hide HeapOk, RegionOk, RegionPlace, Only, NextOf;
    HeapParts(m, pRegions, pRegion, v);
    forall q | q in v.regions && q != last ensures RegionOk(n, q, v.free[q]) && NextOf(n, q) == NextOf(m, q) {
      OtherRegion(m, n, q, last, v.free[q]);
    }
  }

  lemma StoredSize(m: Mem, a: int, x: int)
    ensures |Store32(m, a, x)| == |m|
  {
  }

  lemma OnlyInRegion(m: Mem, n: Mem, r: int)
    requires Only(m, n, r + OFF_NEXT, r + OFF_FREE)
    ensures Only(m, n, r, r + REGION_SIZE)
  {
  }

  /** Rewriting a region's next field leaves the trampolines in use alone. */
  lemma LiveLinks(m: Mem, n: Mem, pRegions: int, pRegion: int, v: View, r: u32)
    requires HeapOk(m, pRegions, pRegion, v) && LiveOutside(m, v.live) && r in v.regions
    requires Only(m, n, r + OFF_NEXT, r + OFF_FREE)
    ensures LiveOutside(n, v.live)
  {
    RegionFacts(m, pRegions, pRegion, v, r);
    forall t | t in v.live ensures Link(m, t) == Link(n, t) {
      TrampolineSpot(m, pRegions, pRegion, v, t);
      RegionFacts(m, pRegions, pRegion, v, RegionOf(t));
      hide HeapOk, RegionOk, LiveOutside, Only;
      SlotFacts(RegionOf(t), t);
      if RegionOf(t) != r { RegionsApart(RegionOf(t), r); }
      ReadOutside(m, n, r + OFF_NEXT, r + OFF_FREE, t + OFF_REMAIN);
    }
  }
}

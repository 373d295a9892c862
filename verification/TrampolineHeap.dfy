/** Trampoline memory: 64 KB regions, each with an in-place list of free trampolines threaded
    through their pbRemain fields. */
module TrampolineHeap {
  import opened Memory
  import opened X86Trampoline

  const REGION_SIZE := 0x1_0000
  const REGION_SIGNATURE := 0x5272_7464
  const TRAMPOLINES_PER_REGION := 909 // REGION_SIZE / TRAMPOLINE_SIZE - 1

  // Field offsets of DETOUR_REGION.
  const OFF_NEXT := 4
  const OFF_FREE := 8

  function Slot(r: int, k: int): int { r + TRAMPOLINE_SIZE * (k + 1) }

  // The words the heap is threaded through.
  function Link(m: Mem, t: int): u32 { Read32(m, t + OFF_REMAIN) }

  function NextOf(m: Mem, r: int): u32 { Read32(m, r + OFF_NEXT) }

  function HeadOf(m: Mem, r: int): u32 { Read32(m, r + OFF_FREE) }

  function RegionOf(x: int): int { x - x % REGION_SIZE }

  /** A trampoline the allocator hands out; the first two of a region never are. */
  predicate IsSlot(r: int, x: int)
  {
    Slot(r, 2) <= x <= Slot(r, TRAMPOLINES_PER_REGION - 1) && (x - r) % TRAMPOLINE_SIZE == 0
  }

  /** `list` is the list of free trampolines that starts at `head`. */
  ghost predicate FreeChain(m: Mem, head: int, list: seq<u32>)
    decreases |list|
  {
    if list == [] then head == 0
    else head == list[0] && FreeChain(m, Link(m, head), list[1..])
  }

  /** `list` is the list of regions that starts at `head`. */
  ghost predicate RegionChain(m: Mem, head: int, list: seq<u32>)
    decreases |list|
  {
    if list == [] then head == 0
    else head == list[0] && RegionChain(m, NextOf(m, head), list[1..])
  }

  ghost predicate Distinct(s: seq<u32>)
  {
    forall i, j :: 0 <= i < j < |s| ==> s[i] != s[j]
  }

  ghost predicate RegionPlace(r: u32)
  {
    r > 0 && r % REGION_SIZE == 0 && r + REGION_SIZE <= SPACE
  }

  ghost predicate RegionOk(m: Mem, r: u32, free: seq<u32>)
  {
    && RegionPlace(r)
    && Read32(m, r) == REGION_SIGNATURE
    && FreeChain(m, HeadOf(m, r), free)
    && Distinct(free)
    && (forall x :: x in free ==> IsSlot(r, x))
    && Link(m, Slot(r, 0)) == 0 && Link(m, Slot(r, 1)) == 0
  }

  /** The ghost view of the heap: regions in list order, each one's free list, and the trampolines
      handed out. */
  datatype View = View(regions: seq<u32>, free: map<u32, seq<u32>>, live: set<u32>)

  /** Every trampoline of every region is on its region's free list or handed out, never both. */
  ghost predicate Partition(v: View)
  {
    && (forall t :: t in v.live ==> RegionOf(t) in v.regions && IsSlot(RegionOf(t), t))
    && (forall r, x :: r in v.regions && r in v.free && IsSlot(r, x) ==> (x in v.free[r] <==> x !in v.live))
  }

  ghost predicate HeapOk(m: Mem, pRegions: int, pRegion: int, v: View)
  {
    && |m| == SPACE
    && RegionChain(m, pRegions, v.regions)
    && Distinct(v.regions)
    && (forall r :: r in v.regions ==> r in v.free && RegionOk(m, r, v.free[r]))
    && Partition(v)
    && (pRegion == 0 || pRegion in v.regions)
  }

  /** Handed-out trampolines continue at code outside their own region. */
  ghost predicate LiveOutside(m: Mem, live: set<u32>)
  {
    forall t :: t in live ==>
                  Link(m, t) != 0 && RegionOf(Link(m, t)) != RegionOf(t)
  }

  // ------------------------------------------------------------------------------------ frames

  /** Agreement on the links of the listed trampolines. */
  ghost predicate SameLinks(m: Mem, n: Mem, list: seq<u32>)
  {
    forall x :: x in list ==> Link(m, x) == Link(n, x)
  }

  lemma {:induction false} ChainFrame(m: Mem, n: Mem, head: int, list: seq<u32>)
    requires FreeChain(m, head, list) && SameLinks(m, n, list)
    ensures FreeChain(n, head, list)
    decreases |list|
  {
    hide Link;
    if list != [] {
      assert list[0] in list;
      assert forall x :: x in list[1..] ==> x in list;
      ChainFrame(m, n, Link(m, head), list[1..]);
    }
  }

  lemma {:induction false} RegionChainFrame(m: Mem, n: Mem, head: int, list: seq<u32>)
    requires RegionChain(m, head, list)
    requires forall r :: r in list ==> NextOf(m, r) == NextOf(n, r)
    ensures RegionChain(n, head, list)
    decreases |list|
  {
    hide NextOf;
    if list != [] {
      assert list[0] in list;
      assert forall x :: x in list[1..] ==> x in list;
      RegionChainFrame(m, n, NextOf(m, head), list[1..]);
    }
  }

  /** Outside `[lo, hi)` nothing changed. */
  ghost predicate Only(m: Mem, n: Mem, lo: int, hi: int)
  {
    && |m| == |n|
    && forall a :: 0 <= a < |m| && !(lo <= a < hi) ==> m[a] == n[a]
  }

  lemma ReadOutside(m: Mem, n: Mem, lo: int, hi: int, a: int)
    requires Only(m, n, lo, hi) && (a + 4 <= lo || hi <= a)
    ensures Read32(m, a) == Read32(n, a)
  {
  }

  lemma SlotFacts(r: int, x: int)
    requires r % REGION_SIZE == 0 && IsSlot(r, x)
    ensures RegionOf(x) == r && r + 216 <= x && x + TRAMPOLINE_SIZE <= r + REGION_SIZE
  {
  }

  lemma SlotsApart(r: int, x: int, y: int)
    requires IsSlot(r, x) && IsSlot(r, y) && x != y
    ensures x + TRAMPOLINE_SIZE <= y || y + TRAMPOLINE_SIZE <= x
  {
    var i, j := (x - r) / TRAMPOLINE_SIZE, (y - r) / TRAMPOLINE_SIZE;
    assert x == r + TRAMPOLINE_SIZE * i && y == r + TRAMPOLINE_SIZE * j;
  }

  lemma RegionsApart(r: int, s: int)
    requires r % REGION_SIZE == 0 && s % REGION_SIZE == 0 && r != s
    ensures r + REGION_SIZE <= s || s + REGION_SIZE <= r
  {
  }

  /** The five words of a region's header and reserved trampolines. */
  ghost predicate SameHeader(m: Mem, n: Mem, r: int)
  {
    && Read32(m, r) == Read32(n, r) && NextOf(m, r) == NextOf(n, r) && HeadOf(m, r) == HeadOf(n, r)
    && Link(m, Slot(r, 0)) == Link(n, Slot(r, 0)) && Link(m, Slot(r, 1)) == Link(n, Slot(r, 1))
  }

  lemma HeaderOutside(m: Mem, n: Mem, lo: int, hi: int, r: int)
    requires Only(m, n, lo, hi) && (r + REGION_SIZE <= lo || hi <= r || r + 216 <= lo)
    ensures SameHeader(m, n, r)
  {
    hide Only, Read32;
    ReadOutside(m, n, lo, hi, r);
    ReadOutside(m, n, lo, hi, r + OFF_NEXT);
    ReadOutside(m, n, lo, hi, r + OFF_FREE);
    ReadOutside(m, n, lo, hi, Slot(r, 0) + OFF_REMAIN);
    ReadOutside(m, n, lo, hi, Slot(r, 1) + OFF_REMAIN);
  }

  lemma RegionKept(m: Mem, n: Mem, r: u32, free: seq<u32>)
    requires RegionOk(m, r, free) && SameHeader(m, n, r) && SameLinks(m, n, free)
    ensures RegionOk(n, r, free) && NextOf(m, r) == NextOf(n, r)
  {
    hide FreeChain, IsSlot, Distinct, Read32, SameLinks, RegionPlace;
    ChainFrame(m, n, HeadOf(m, r), free);
  }

  /** A change confined to one region leaves every other region as it was. */
  lemma OtherRegion(m: Mem, n: Mem, r: u32, s: u32, free: seq<u32>)
    requires RegionPlace(s) && r != s && RegionOk(m, r, free) && Only(m, n, s, s + REGION_SIZE)
    ensures RegionOk(n, r, free) && NextOf(m, r) == NextOf(n, r)
  {
    hide FreeChain, IsSlot, Distinct, Read32, Only;
    RegionsApart(r, s);
    forall x | x in free ensures Link(m, x) == Link(n, x) {
      SlotFacts(r, x);
      ReadOutside(m, n, s, s + REGION_SIZE, x + OFF_REMAIN);
    }
    HeaderOutside(m, n, s, s + REGION_SIZE, r);
    RegionKept(m, n, r, free);
  }

  /** A change confined to one trampoline that is not free leaves its region as it was. */
  lemma OwnRegion(m: Mem, n: Mem, r: u32, t: int, free: seq<u32>)
    requires RegionOk(m, r, free) && IsSlot(r, t) && t !in free && Only(m, n, t, t + TRAMPOLINE_SIZE)
    ensures RegionOk(n, r, free) && NextOf(m, r) == NextOf(n, r)
  {
    hide FreeChain, IsSlot, Distinct, Read32, Only;
    SlotFacts(r, t);
    forall x | x in free ensures Link(m, x) == Link(n, x) {
      SlotsApart(r, x, t);
      ReadOutside(m, n, t, t + TRAMPOLINE_SIZE, x + OFF_REMAIN);
    }
    HeaderOutside(m, n, t, t + TRAMPOLINE_SIZE, r);
    RegionKept(m, n, r, free);
  }

  /** A change confined to one region, whose own invariant still holds, keeps the heap. */
  lemma HeapFrame(m: Mem, n: Mem, pRegions: int, pRegion: int, v: View, w: View, s: u32)
    requires HeapOk(m, pRegions, pRegion, v) && s in v.regions
    requires Only(m, n, s, s + REGION_SIZE) && NextOf(m, s) == NextOf(n, s)
    requires w.regions == v.regions && s in w.free && RegionOk(n, s, w.free[s])
    requires forall r :: r in v.regions && r != s ==> r in w.free && w.free[r] == v.free[r]
    requires Partition(w)
    ensures HeapOk(n, pRegions, pRegion, w)
  {
    assert |n| == |m|;
    hide RegionOk, RegionPlace, Only, Partition, Distinct, NextOf;
    forall r | r in v.regions
      ensures r in w.free && RegionOk(n, r, w.free[r]) && NextOf(m, r) == NextOf(n, r)
    {
      if r != s {
        RegionPlaceOf(m, s, v.free[s]);
        OtherRegion(m, n, r, s, v.free[r]);
      }
    }
    RegionChainFrame(m, n, pRegions, v.regions);
  }

  lemma RegionPlaceOf(m: Mem, r: u32, free: seq<u32>)
    requires RegionOk(m, r, free)
    ensures RegionPlace(r)
  {
  }

  // ----------------------------------------------------------------------- the two list steps

  /** Popping the head of a free list and filling the trampoline with breakpoints. */
  function Popped(m: Mem, r: int): (n: Mem)
    ensures |n| == |m|
  {
    Store(Store32(m, r + OFF_FREE, Link(m, HeadOf(m, r))), HeadOf(m, r), Fill(TRAMPOLINE_SIZE, 0xcc))
  }

  /** Clearing a trampoline and pushing it onto its region's free list. */
  function Pushed(m: Mem, r: int, t: int): (n: Mem)
    ensures |n| == |m|
  {
    var cleared := Store(m, t, Fill(TRAMPOLINE_SIZE, 0));
    Store32(Store32(cleared, t + OFF_REMAIN, HeadOf(cleared, r)), r + OFF_FREE, t)
  }

  /** Storing four or more bytes leaves the words beside them alone. */
  lemma ReadBeside(m: Mem, a: int, s: seq<byte>, b: int)
    requires b + 4 <= a || a + |s| <= b
    ensures Read32(Store(m, a, s), b) == Read32(m, b)
  {
  }

  lemma ReadBeside32(m: Mem, a: int, x: int, b: int)
    requires b + 4 <= a || a + 4 <= b
    ensures Read32(Store32(m, a, x), b) == Read32(m, b)
  {
    ReadBeside(m, a, Bytes32(x), b);
  }

  lemma FreeHead(m: Mem, r: u32, free: seq<u32>)
    requires RegionOk(m, r, free) && free != []
    ensures HeadOf(m, r) == free[0] && IsSlot(r, free[0]) && free[0] !in free[1..]
    ensures FreeChain(m, Link(m, free[0]), free[1..]) && Distinct(free[1..])
    ensures forall x :: x in free[1..] ==> x in free
  {
    assert free[0] in free;
  }

  lemma PopRegion(m: Mem, r: u32, free: seq<u32>)
    requires |m| == SPACE && RegionOk(m, r, free) && free != []
    ensures HeadOf(m, r) == free[0]
    ensures RegionOk(Popped(m, r), r, free[1..]) && free[0] !in free[1..] && NextOf(m, r) == NextOf(Popped(m, r), r)
  {
    FreeHead(m, r, free);
    PopLink(m, r, free);
    var mid := Store32(m, r + OFF_FREE, Link(m, free[0]));
    assert Only(mid, Popped(m, r), free[0], free[0] + TRAMPOLINE_SIZE);
    hide RegionOk, Store32, Store, Only;
    OwnRegion(mid, Popped(m, r), r, free[0], free[1..]);
  }

  lemma PopLink(m: Mem, r: u32, free: seq<u32>)
    requires |m| == SPACE && RegionOk(m, r, free) && free != []
    ensures var n := Store32(m, r + OFF_FREE, Link(m, free[0]));
            RegionOk(n, r, free[1..]) && NextOf(m, r) == NextOf(n, r)
  {
    FreeHead(m, r, free);
    hide FreeChain, IsSlot, Distinct, Store32, Link, HeadOf, NextOf, Read32;
    var x := Link(m, free[0]);
    var n := Store32(m, r + OFF_FREE, x);
    forall y | y in free[1..] ensures Link(m, y) == Link(n, y) {
      SlotFacts(r, y);
      HeadStored(m, r, x, y);
    }
    ChainFrame(m, n, x, free[1..]);
    HeadStored(m, r, x, Slot(r, 0));
    HeadStored(m, r, x, Slot(r, 1));
  }

  /** Rewriting the head of a region's free list changes no other word of the heap. */
  lemma HeadStored(m: Mem, r: int, x: u32, t: int)
    requires 0 <= r && r + 12 <= |m| && r + 72 <= t
    ensures var n := Store32(m, r + OFF_FREE, x);
            && HeadOf(n, r) == x && Read32(n, r) == Read32(m, r) && NextOf(n, r) == NextOf(m, r)
            && Link(n, t) == Link(m, t)
  {
    hide Store, Store32, Read32;
    ReadStored(m, r + OFF_FREE, x);
    ReadBeside32(m, r + OFF_FREE, x, r);
    ReadBeside32(m, r + OFF_FREE, x, r + OFF_NEXT);
    ReadBeside32(m, r + OFF_FREE, x, t + OFF_REMAIN);
  }

  lemma PushRegion(m: Mem, r: u32, t: u32, free: seq<u32>)
    requires |m| == SPACE && RegionOk(m, r, free) && IsSlot(r, t) && t !in free
    ensures RegionOk(Pushed(m, r, t), r, [t] + free) && NextOf(m, r) == NextOf(Pushed(m, r, t), r)
  {
    SlotFacts(r, t);
    var cleared := Store(m, t, Fill(TRAMPOLINE_SIZE, 0));
    assert Only(m, cleared, t, t + TRAMPOLINE_SIZE);
    OwnRegion(m, cleared, r, t, free);
    PushLink(cleared, r, t, free);
  }

  lemma PushLink(m: Mem, r: u32, t: u32, free: seq<u32>)
    requires |m| == SPACE && RegionOk(m, r, free) && IsSlot(r, t) && t !in free
    ensures var n := Store32(Store32(m, t + OFF_REMAIN, HeadOf(m, r)), r + OFF_FREE, t);
            RegionOk(n, r, [t] + free) && NextOf(m, r) == NextOf(n, r)
  {
    hide FreeChain, IsSlot, Store, Store32, Read32;
    SlotFacts(r, t);
    var head := HeadOf(m, r);
    var linked := Store32(m, t + OFF_REMAIN, head);
    var n := Store32(linked, r + OFF_FREE, t);
    forall x | x in free ensures Link(m, x) == Link(n, x) {
      SlotFacts(r, x);
      SlotsApart(r, x, t);
      ReadBeside32(m, t + OFF_REMAIN, head, x + OFF_REMAIN);
      ReadBeside32(linked, r + OFF_FREE, t, x + OFF_REMAIN);
    }
    ChainFrame(m, n, head, free);
    ReadStored(m, t + OFF_REMAIN, head);
    ReadBeside32(linked, r + OFF_FREE, t, t + OFF_REMAIN);
    Stored32Size(m, t + OFF_REMAIN, head);
    ReadStored(linked, r + OFF_FREE, t);
    PushHeader(m, r, t, head);
    FreeChainCons(n, t, free);
  }

  lemma Stored32Size(m: Mem, a: int, x: int)
    ensures |Store32(m, a, x)| == |m|
  {
  }

  lemma FreeChainCons(m: Mem, t: u32, free: seq<u32>)
    requires FreeChain(m, Link(m, t), free)
    ensures FreeChain(m, t, [t] + free)
  {
    assert ([t] + free)[1..] == free;
  }

  lemma PushHeader(m: Mem, r: int, t: int, head: int)
    requires r + 216 <= t
    ensures var n := Store32(Store32(m, t + OFF_REMAIN, head), r + OFF_FREE, t);
            && Read32(m, r) == Read32(n, r) && NextOf(m, r) == NextOf(n, r)
            && Link(m, Slot(r, 0)) == Link(n, Slot(r, 0)) && Link(m, Slot(r, 1)) == Link(n, Slot(r, 1))
  {
    hide Store, Store32, Read32;
    var linked := Store32(m, t + OFF_REMAIN, head);
    ReadBeside32(m, t + OFF_REMAIN, head, r);
    ReadBeside32(linked, r + OFF_FREE, t, r);
    ReadBeside32(m, t + OFF_REMAIN, head, r + OFF_NEXT);
    ReadBeside32(linked, r + OFF_FREE, t, r + OFF_NEXT);
    ReadBeside32(m, t + OFF_REMAIN, head, Slot(r, 0) + OFF_REMAIN);
    ReadBeside32(linked, r + OFF_FREE, t, Slot(r, 0) + OFF_REMAIN);
    ReadBeside32(m, t + OFF_REMAIN, head, Slot(r, 1) + OFF_REMAIN);
    ReadBeside32(linked, r + OFF_FREE, t, Slot(r, 1) + OFF_REMAIN);
  }
}

/** Writing the .detour section into the output buffer (SizeOutputBuffer, AllocateOutput, CImageThunks,
    CImageChars and the import part of CImage::Write). */
module ImportWriter {
  import opened Options
  import opened Memory
  import opened ImportEmit
  import opened ImportRead
  import opened Division

  const HEADER_SIZE := 64 // sizeof(DETOUR_SECTION_HEADER)
  const DESC_SIZE := 20 // sizeof(IMAGE_IMPORT_DESCRIPTOR)

  function Align(n: int, size: int): int
    requires size > 0
  {
    (n + size - 1) / size * size
  }

  /** Areas of a section for these counts, in the order they are allocated. */
  function LayoutOf(pre: nat, thunks: nat, chars: nat, data: nat, tables: nat): Layout
  {
    var lookup := HEADER_SIZE + QuadAlign(pre);
    var bound := lookup + QuadAlign(4 * thunks);
    var names := bound + QuadAlign(4 * thunks);
    var body := names + QuadAlign(chars);
    var table := body + QuadAlign(data);
    Layout(HEADER_SIZE, lookup, bound, names, body, table, table + QuadAlign(DESC_SIZE * tables))
  }

  /** What SizeOutputBuffer is asked for. */
  function SizeAsked(pre: nat, thunks: nat, chars: nat, data: nat, tables: nat): int
  {
    HEADER_SIZE + pre + QuadAlign(data) + QuadAlign(4 * thunks) + QuadAlign(4 * thunks) + QuadAlign(chars)
    + QuadAlign(DESC_SIZE * tables)
  }

  lemma QuadFacts(n: int)
    ensures n <= QuadAlign(n) < n + 8 && QuadAlign(n) % 8 == 0 && (QuadAlign(n) == n <==> n % 8 == 0)
  {
  }

  lemma AlignFacts(n: int, size: int)
    requires size > 0
    ensures n <= Align(n, size) && Align(n, size) % size == 0
  {
    var q, r := (n + size - 1) / size, (n + size - 1) % size;
    assert n + size - 1 == size * q + r;
    Euclid(q * size, size, q, 0);
  }

  /** It is the least multiple not below. */
  lemma AlignLeast(n: int, size: int, m: int)
    requires size > 0 && n <= m && m % size == 0
    ensures Align(n, size) <= m
  {
    var q, r := (n + size - 1) / size, (n + size - 1) % size;
    Least(size, q, m / size, r, n);
    assert q * size == size * q && m == size * (m / size);
  }

  lemma Least(size: int, q: int, k: int, r: int, n: int)
    requires size > 0 && n + size - 1 == size * q + r && 0 <= r && n <= size * k
    ensures size * q <= size * k
  {
    assert size * (q - k) == size * q - size * k;
    AtLeast(size, q - k);
    if q < k { assert size * (k - q) == size * k - size * q; AtLeast(size, k - q); }
  }

  /** The allocations add up to what was asked for, plus the padding of the saved headers: they fit a
      buffer exactly if it has that much room beyond what was asked. A buffer whose size is a multiple of
      eight, as every file alignment that is one makes it, always has. */
  lemma TwoPasses(pre: nat, thunks: nat, chars: nat, data: nat, tables: nat, length: nat)
    requires SizeAsked(pre, thunks, chars, data, tables) <= length
    ensures LayoutOf(pre, thunks, chars, data, tables).end <= length <==>
            QuadAlign(pre) - pre <= length - SizeAsked(pre, thunks, chars, data, tables)
    ensures pre % 8 == 0 || length % 8 == 0 ==> LayoutOf(pre, thunks, chars, data, tables).end <= length
  {
    hide QuadAlign;
    LayoutEnd(pre, thunks, chars, data, tables);
    QuadFacts(pre);
    if length % 8 == 0 { RoomForPadding(LayoutOf(pre, thunks, chars, data, tables).end, length, QuadAlign(pre) - pre); }
  }

  /** Multiples of eight less than eight apart are the same. */
  lemma RoomForPadding(end: int, length: int, padding: int)
    requires end % 8 == 0 && length % 8 == 0 && 0 <= padding < 8 && end - padding <= length
    ensures end <= length
  {
  }

  lemma LayoutEnd(pre: nat, thunks: nat, chars: nat, data: nat, tables: nat)
    ensures var lay := LayoutOf(pre, thunks, chars, data, tables);
            && lay.end == SizeAsked(pre, thunks, chars, data, tables) + (QuadAlign(pre) - pre) && lay.end % 8 == 0
            && LayoutOk(lay, thunks, chars, data, tables) && SizeAsked(pre, thunks, chars, data, tables) >= 0
  {
    hide QuadAlign, LayoutOk;
    LayoutFits(pre, thunks, chars, data, tables);
    QuadFacts(pre);
    QuadFacts(4 * thunks);
    QuadFacts(chars);
    QuadFacts(data);
    QuadFacts(DESC_SIZE * tables);
    Eights(HEADER_SIZE, QuadAlign(pre), QuadAlign(4 * thunks), QuadAlign(4 * thunks), QuadAlign(chars),
           QuadAlign(data), QuadAlign(DESC_SIZE * tables));
  }

  lemma Eights(a: int, b: int, c: int, d: int, e: int, f: int, g: int)
    requires a % 8 == 0 && b % 8 == 0 && c % 8 == 0 && d % 8 == 0 && e % 8 == 0 && f % 8 == 0 && g % 8 == 0
    ensures (a + b + c + d + e + f + g) % 8 == 0
  {
  }

  lemma LayoutFits(pre: nat, thunks: nat, chars: nat, data: nat, tables: nat)
    ensures LayoutOk(LayoutOf(pre, thunks, chars, data, tables), thunks, chars, data, tables)
  {
    hide QuadAlign;
    QuadFacts(pre);
    QuadFacts(4 * thunks);
    QuadFacts(chars);
    QuadFacts(data);
    QuadFacts(DESC_SIZE * tables);
  }

  /** Sizes that are a multiple of an alignment of eight or any multiple of it are multiples of eight. */
  lemma AlignedToEight(length: nat, alignment: nat)
    requires alignment > 0 && length % alignment == 0 && alignment % 8 == 0
    ensures length % 8 == 0
  {
    var q, k := length / alignment, alignment / 8;
    assert length == alignment * q && alignment == 8 * k;
    assert length == 8 * (k * q) by { Regroup(k, q); }
    Euclid(length, 8, k * q, 0);
  }

  lemma Regroup(k: int, q: int)
    ensures (8 * k) * q == 8 * (k * q)
  {
  }

  /** With a smaller alignment saved headers of an odd size may not fit: nothing to import, 1001 bytes of
      headers and an alignment of four. */
  lemma SmallAlignment()
    ensures SizeAsked(1001, 0, 0, 0, 1) == 1089 && Align(1089, 4) == 1092 < LayoutOf(1001, 0, 0, 0, 1).end
  {
  }

  // ------------------------------------------------------------------- writes beside an area

  lemma WordBeside(m: Mem, at: int, s: seq<byte>, base: int, k: int)
    requires base + 4 * k + 4 <= at || at + |s| <= base + 4 * k
    ensures WordAt(Store(m, at, s), base, k) == WordAt(m, base, k)
  {
  }

  lemma CharBeside(m: Mem, at: int, s: seq<byte>, base: int, k: int)
    requires base + k < at || at + |s| <= base + k
    ensures CharAt(Store(m, at, s), base, k) == CharAt(m, base, k)
  {
  }

  lemma DescBeside(m: Mem, at: int, s: seq<byte>, base: int, k: int)
    requires base + 20 * k + 20 <= at || at + |s| <= base + 20 * k
    ensures DescAt(Store(m, at, s), base, k) == DescAt(m, base, k)
  {
    var n := Store(m, at, s);
    assert forall i :: base + 20 * k <= i < base + 20 * k + 20 ==> At(n, i) == At(m, i);
  }

  function DescBytes(d: Desc): (s: seq<byte>)
    ensures |s| == 20
  {
    Bytes32(d.oft) + Bytes32(0) + Bytes32(d.chain) + Bytes32(d.name) + Bytes32(d.ft)
  }

  predicate DescOk(d: Desc)
  {
    0 <= d.oft < SPACE && 0 <= d.chain < SPACE && 0 <= d.name < SPACE && 0 <= d.ft < SPACE
  }

  lemma DescStored(m: Mem, base: int, k: int, d: Desc)
    requires 0 <= base + 20 * k && base + 20 * k + 20 <= |m| && DescOk(d)
    ensures DescAt(Store(m, base + 20 * k, DescBytes(d)), base, k) == d
  {
    hide Bytes32, Read32;
    var at := base + 20 * k;
    var n := Store(m, at, DescBytes(d));
    assert n[at..at + 4] == Bytes32(d.oft) && n[at + 8..at + 12] == Bytes32(d.chain);
    assert n[at + 12..at + 16] == Bytes32(d.name) && n[at + 16..at + 20] == Bytes32(d.ft);
    ReadBytes(n, at, d.oft);
    ReadBytes(n, at + 8, d.chain);
    ReadBytes(n, at + 12, d.name);
    ReadBytes(n, at + 16, d.ft);
  }

  // ---------------------------------------------------------------------------- partly written

  /** How much room each area has. */
  datatype Room = Room(thunks: nat, chars: nat, data: nat, tables: nat)

  /** Buffer `m` is `m0` with `e` written into its areas and nothing else. */
  ghost predicate Emitting(m0: Mem, m: Mem, lay: Layout, room: Room, e: Emitted)
  {
    && |m| == |m0| && LayoutOk(lay, room.thunks, room.chars, room.data, room.tables) && lay.end <= |m|
    && |e.lookup| <= room.thunks && |e.bound| <= room.thunks && |e.chars| <= room.chars && |e.table| < room.tables
    && Holds(m, lay, e)
    && forall a :: 0 <= a < |m| && !Writable(lay, |e.table|, a) ==> m[a] == m0[a]
  }

  predicate Writable(lay: Layout, tables: nat, a: int)
  {
    lay.lookup <= a < lay.data || lay.table <= a < lay.table + 20 * tables
  }

  lemma PutLookup(m0: Mem, m: Mem, lay: Layout, room: Room, e: Emitted, w: u32)
    requires Emitting(m0, m, lay, room, e) && |e.lookup| < room.thunks
    ensures Emitting(m0, Store32(m, lay.lookup + 4 * |e.lookup|, w), lay, room, e.(lookup := e.lookup + [w]))
  {
    hide WordAt, CharAt, DescAt, Bytes32;
    var at := lay.lookup + 4 * |e.lookup|;
    WordStored(m, lay.lookup, |e.lookup|, w);
    forall k | 0 <= k < |e.lookup|
      ensures WordAt(Store32(m, at, w), lay.lookup, k) ==
              e.lookup[k] { WordBeside(m, at, Bytes32(w), lay.lookup, k); }
    forall k | 0 <= k < |e.bound|
      ensures WordAt(Store32(m, at, w), lay.bound, k) == e.bound[k] { WordBeside(m, at, Bytes32(w), lay.bound, k); }
    forall k | 0 <= k < |e.chars|
      ensures CharAt(Store32(m, at, w), lay.chars, k) == e.chars[k] { CharBeside(m, at, Bytes32(w), lay.chars, k); }
    forall k | 0 <= k < |e.table|
      ensures DescAt(Store32(m, at, w), lay.table, k) == e.table[k] { DescBeside(m, at, Bytes32(w), lay.table, k); }
  }

  lemma WordStored(m: Mem, base: int, k: int, w: u32)
    requires 0 <= base + 4 * k && base + 4 * k + 4 <= |m|
    ensures WordAt(Store32(m, base + 4 * k, w), base, k) == w
  {
    hide Store32, Read32;
    ReadStored(m, base + 4 * k, w);
  }

  lemma PutBound(m0: Mem, m: Mem, lay: Layout, room: Room, e: Emitted, w: u32)
    requires Emitting(m0, m, lay, room, e) && |e.bound| < room.thunks
    ensures Emitting(m0, Store32(m, lay.bound + 4 * |e.bound|, w), lay, room, e.(bound := e.bound + [w]))
  {
    hide WordAt, CharAt, DescAt, Bytes32;
    var at := lay.bound + 4 * |e.bound|;
    WordStored(m, lay.bound, |e.bound|, w);
    forall k | 0 <= k < |e.lookup|
      ensures WordAt(Store32(m, at, w), lay.lookup, k) ==
              e.lookup[k] { WordBeside(m, at, Bytes32(w), lay.lookup, k); }
    forall k | 0 <= k < |e.bound|
      ensures WordAt(Store32(m, at, w), lay.bound, k) == e.bound[k] { WordBeside(m, at, Bytes32(w), lay.bound, k); }
    forall k | 0 <= k < |e.chars|
      ensures CharAt(Store32(m, at, w), lay.chars, k) == e.chars[k] { CharBeside(m, at, Bytes32(w), lay.chars, k); }
    forall k | 0 <= k < |e.table|
      ensures DescAt(Store32(m, at, w), lay.table, k) == e.table[k] { DescBeside(m, at, Bytes32(w), lay.table, k); }
  }

  lemma PutChars(m0: Mem, m: Mem, lay: Layout, room: Room, e: Emitted, s: seq<byte>)
    requires Emitting(m0, m, lay, room, e) && |e.chars| + |s| <= room.chars
    ensures Emitting(m0, Store(m, lay.chars + |e.chars|, s), lay, room, e.(chars := e.chars + s))
  {
    hide WordAt, DescAt;
    var at := lay.chars + |e.chars|;
    forall k | 0 <= k < |e.lookup|
      ensures WordAt(Store(m, at, s), lay.lookup, k) == e.lookup[k] { WordBeside(m, at, s, lay.lookup, k); }
    forall k | 0 <= k < |e.bound|
      ensures WordAt(Store(m, at, s), lay.bound, k) == e.bound[k] { WordBeside(m, at, s, lay.bound, k); }
    forall k | 0 <= k < |e.chars| + |s| ensures CharAt(Store(m, at, s), lay.chars, k) == (e.chars + s)[k] {
      if k < |e.chars| { CharBeside(m, at, s, lay.chars, k); }
    }
    forall k | 0 <= k < |e.table|
      ensures DescAt(Store(m, at, s), lay.table, k) == e.table[k] { DescBeside(m, at, s, lay.table, k); }
  }

  lemma PutDesc(m0: Mem, m: Mem, lay: Layout, room: Room, e: Emitted, d: Desc)
    requires Emitting(m0, m, lay, room, e) && |e.table| + 1 < room.tables && DescOk(d)
    ensures Emitting(m0, Store(m, lay.table + 20 * |e.table|, DescBytes(d)), lay, room, e.(table := e.table + [d]))
  {
    hide WordAt, CharAt, DescAt, DescBytes;
    var at, s := lay.table + 20 * |e.table|, DescBytes(d);
    DescStored(m, lay.table, |e.table|, d);
    forall k | 0 <= k < |e.lookup|
      ensures WordAt(Store(m, at, s), lay.lookup, k) == e.lookup[k] { WordBeside(m, at, s, lay.lookup, k); }
    forall k | 0 <= k < |e.bound|
      ensures WordAt(Store(m, at, s), lay.bound, k) == e.bound[k] { WordBeside(m, at, s, lay.bound, k); }
    forall k | 0 <= k < |e.chars|
      ensures CharAt(Store(m, at, s), lay.chars, k) == e.chars[k] { CharBeside(m, at, s, lay.chars, k); }
    forall k | 0 <= k < |e.table|
      ensures DescAt(Store(m, at, s), lay.table, k) == e.table[k] { DescBeside(m, at, s, lay.table, k); }
  }

  // ----------------------------------------------------------------------------- the buffer

  /** Stores bytes at an offset. */
  method Put(a: array<byte>, at: nat, s: seq<byte>)
    requires at + |s| <= a.Length
    modifies a
    ensures a[..] == Store(old(a[..]), at, s)
  {
    ghost var was := a[..];
    var i := 0;
    while i < |s|
      invariant 0 <= i <= |s|
      invariant forall j :: 0 <= j < a.Length ==> a[j] == if at <= j < at + i then s[j - at] else was[j]
    {
      a[at + i] := s[i];
      i := i + 1;
    }
  }

  /** The thunks of one of the two tables. */
  class CImageThunks {
    const buffer: array<byte>
    const nThunksMax: nat
    var pThunks: nat
    var nThunks: nat
    var nThunkVirtAddr: int

    constructor (buffer: array<byte>, nThunksMax: nat, offset: nat, virtAddr: int)
      ensures this.buffer == buffer && this.nThunksMax == nThunksMax && Stands(offset, virtAddr, 0)
    {
      this.buffer := buffer;
      this.nThunksMax := nThunksMax;
      pThunks, nThunks, nThunkVirtAddr := offset, 0, virtAddr;
    }

    /** `n` thunks have been written from `offset` and `virtAddr` on. */
    ghost predicate Stands(offset: int, virtAddr: int, n: nat)
      reads this
    {
      nThunks == n && pThunks == offset + 4 * n && nThunkVirtAddr == virtAddr + 4 * n
    }

    /** The address of the next thunk, if there is more than one in all. */
    function Current(): int
      reads this
    {
      if nThunksMax > 1 then nThunkVirtAddr else 0
    }

    method Allocate(nData: u32) returns (virtAddr: int)
      requires pThunks + 4 <= buffer.Length || nThunks >= nThunksMax
      modifies this, buffer
      ensures if old(nThunks) < nThunksMax then
                && virtAddr == old(nThunkVirtAddr) && nThunks == old(nThunks) + 1
                && pThunks == old(pThunks) + 4 && nThunkVirtAddr == old(nThunkVirtAddr) + 4
                && buffer[..] == Store32(old(buffer[..]), old(pThunks), nData)
              else
                virtAddr == 0 && buffer[..] == old(buffer[..]) && nThunks == old(nThunks)
                && pThunks == old(pThunks) && nThunkVirtAddr == old(nThunkVirtAddr)
    {
      if nThunks >= nThunksMax {
        return 0;
      }
      virtAddr := nThunkVirtAddr;
      Put(buffer, pThunks, Bytes32(nData));
      nThunks, pThunks, nThunkVirtAddr := nThunks + 1, pThunks + 4, nThunkVirtAddr + 4;
    }
  }

  /** The characters of file and import names. */
  class CImageChars {
    const buffer: array<byte>
    const nCharsMax: nat
    var pChars: nat
    var nChars: nat
    var nCharVirtAddr: int

    constructor (buffer: array<byte>, nCharsMax: nat, offset: nat, virtAddr: int)
      ensures this.buffer == buffer && this.nCharsMax == nCharsMax && Stands(offset, virtAddr, 0)
    {
      this.buffer := buffer;
      this.nCharsMax := nCharsMax;
      pChars, nChars, nCharVirtAddr := offset, 0, virtAddr;
    }

    ghost predicate Stands(offset: int, virtAddr: int, n: nat)
      reads this
    {
      nChars == n && pChars == offset + n && nCharVirtAddr == virtAddr + n
    }

    /** A name, or a hint and a name (`prefix`), padded to an even length. The padding byte is whatever
        lies there, zero in a fresh buffer; it is written here. */
    method Allocate(prefix: seq<byte>, name: seq<byte>) returns (virtAddr: int)
      requires |prefix| % 2 == 0
      requires pChars + |prefix| + |EvenString(name)| <= buffer.Length
               || nChars + |prefix| + |EvenString(name)| > nCharsMax
      modifies this, buffer
      ensures var s := prefix + EvenString(name);
              if old(nChars) + |s| <= nCharsMax then
                && virtAddr == old(nCharVirtAddr) && nChars == old(nChars) + |s|
                && pChars == old(pChars) + |s| && nCharVirtAddr == old(nCharVirtAddr) + |s|
                && buffer[..] == Store(old(buffer[..]), old(pChars), s)
              else
                virtAddr == 0 && buffer[..] == old(buffer[..]) && nChars == old(nChars) && pChars == old(pChars)
                && nCharVirtAddr == old(nCharVirtAddr)
    {
      EvenStringSize(name);
      var nLen := |name| + 1 + |prefix|;
      nLen := nLen + nLen % 2;
      if nChars + nLen > nCharsMax {
        return 0;
      }
      virtAddr := nCharVirtAddr;
      Put(buffer, pChars, prefix + EvenString(name));
      pChars, nChars, nCharVirtAddr := pChars + nLen, nChars + nLen, nCharVirtAddr + nLen;
    }
  }

  // ------------------------------------------------------------------------------- the imports

  /** The three writers stand where `e` ends. */
  ghost predicate Writing(m0: Mem, buffer: array<byte>, lookup: CImageThunks, bound: CImageThunks, names: CImageChars,
                          lay: Layout, room: Room, b: Bases, e: Emitted)
    reads buffer, lookup, bound, names
  {
    && lookup != bound && lookup.buffer == bound.buffer == names.buffer == buffer
    && lookup.nThunksMax == bound.nThunksMax == room.thunks && names.nCharsMax == room.chars
    && lookup.Stands(lay.lookup, b.lookup, |e.lookup|) && bound.Stands(lay.bound, b.bound, |e.bound|)
    && names.Stands(lay.chars, b.chars, |e.chars|)
    && Emitting(m0, buffer[..], lay, room, e)
  }

  lemma RoomFacts(m0: Mem, m: Mem, lay: Layout, room: Room, e: Emitted)
    requires Emitting(m0, m, lay, room, e)
    ensures |m| == |m0| && lay.end <= |m| && LayoutOk(lay, room.thunks, room.chars, room.data, room.tables)
    ensures |e.lookup| <= room.thunks && |e.bound| <= room.thunks && |e.chars| <= room.chars && |e.table| < room.tables
  {
    hide Holds;
  }

  method EmitLookup(ghost m0: Mem, buffer: array<byte>, lookup: CImageThunks, bound: CImageThunks, names: CImageChars,
                    ghost lay: Layout, ghost room: Room, ghost b: Bases, ghost e: Emitted, w: u32)
    requires Writing(m0, buffer, lookup, bound, names, lay, room, b, e) && |e.lookup| < room.thunks
    modifies buffer, lookup
    ensures Writing(m0, buffer, lookup, bound, names, lay, room, b, e.(lookup := e.lookup + [w]))
  {
    hide Emitting, Store32, LayoutOk;
    RoomFacts(m0, buffer[..], lay, room, e);
    LayoutRoom(lay, room, |buffer[..]|);
    PutLookup(m0, buffer[..], lay, room, e, w);
    var ignored := lookup.Allocate(w);
  }

  lemma LayoutRoom(lay: Layout, room: Room, size: nat)
    requires LayoutOk(lay, room.thunks, room.chars, room.data, room.tables) && lay.end <= size
    ensures lay.lookup + 4 * room.thunks <= size && lay.bound + 4 * room.thunks <= size
            && lay.chars + room.chars <= size
    ensures lay.table + 20 * room.tables <= size
  {
  }

  method EmitBound(ghost m0: Mem, buffer: array<byte>, lookup: CImageThunks, bound: CImageThunks, names: CImageChars,
                   ghost lay: Layout, ghost room: Room, ghost b: Bases, ghost e: Emitted, w: u32)
    requires Writing(m0, buffer, lookup, bound, names, lay, room, b, e) && |e.bound| < room.thunks
    modifies buffer, bound
    ensures Writing(m0, buffer, lookup, bound, names, lay, room, b, e.(bound := e.bound + [w]))
  {
    hide Emitting, Store32, LayoutOk;
    RoomFacts(m0, buffer[..], lay, room, e);
    LayoutRoom(lay, room, |buffer[..]|);
    PutBound(m0, buffer[..], lay, room, e, w);
    var ignored := bound.Allocate(w);
  }

  method EmitChars(ghost m0: Mem, buffer: array<byte>, lookup: CImageThunks, bound: CImageThunks, names: CImageChars,
                   ghost lay: Layout, ghost room: Room, ghost b: Bases, ghost e: Emitted, prefix: seq<byte>,
                   name: seq<byte>)
    returns (virtAddr: int)
    requires Writing(m0, buffer, lookup, bound, names, lay, room, b, e) && |prefix| % 2 == 0
    requires |e.chars| + |prefix + EvenString(name)| <= room.chars
    modifies buffer, names
    ensures virtAddr == b.chars + |e.chars|
    ensures Writing(m0, buffer, lookup, bound, names, lay, room, b, e.(chars := e.chars + (prefix + EvenString(name))))
  {
    hide Emitting, Store, LayoutOk, EvenString;
    RoomFacts(m0, buffer[..], lay, room, e);
    LayoutRoom(lay, room, |buffer[..]|);
    PutChars(m0, buffer[..], lay, room, e, prefix + EvenString(name));
    virtAddr := names.Allocate(prefix, name);
  }

  /** The thunks, hints and names of one file's imports. */
  method EmitNames(ghost m0: Mem, buffer: array<byte>, lookup: CImageThunks, bound: CImageThunks, names: CImageChars,
                   ghost lay: Layout, ghost room: Room, ghost b: Bases, ghost e: Emitted, imports: seq<Import>)
    requires Writing(m0, buffer, lookup, bound, names, lay, room, b, e)
    requires |e.lookup| + |imports| <= room.thunks && |e.chars| + ImportsChars(imports) <= room.chars
    requires 0 <= b.chars && b.chars + room.chars < ORDINAL_FLAG && forall k :: 0 <= k < |imports| ==>
                                                                                  ImportOk(imports[k])
    modifies buffer, lookup, names
    ensures Writing(m0, buffer, lookup, bound, names, lay, room, b, EmitImports(b, e, imports))
  {
    hide Writing, EmitImports, ImportsChars, HintName, EvenString, Bytes16;
    var n := 0;
    NoImports(b, e, imports);
    while n < |imports|
      invariant 0 <= n <= |imports|
      invariant Writing(m0, buffer, lookup, bound, names, lay, room, b, EmitImports(b, e, imports[..n]))
    {
      ghost var done := EmitImports(b, e, imports[..n]);
      NextImport(b, e, imports, n);
      var i := imports[n];
      if i.name.Some? {
        HintForm(i.hint, i.name.value);
        var nDstName := EmitChars(m0, buffer, lookup, bound, names, lay, room, b, done, Bytes16(i.hint), i.name.value);
        EmitLookup(m0, buffer, lookup, bound, names, lay, room, b,
                   done.(chars := done.chars + HintName(i.hint, i.name.value)), nDstName);
      } else {
        EmitLookup(m0, buffer, lookup, bound, names, lay, room, b, done, ORDINAL_FLAG + i.ordinal);
      }
      n := n + 1;
    }
    assert imports[..n] == imports;
  }

  lemma HintForm(hint: int, name: seq<byte>)
    ensures Bytes16(hint) + EvenString(name) == HintName(hint, name) && |HintName(hint, name)| == Even(2 + |name| + 1)
  {
    EvenStringSize(name);
  }

  lemma NoImports(b: Bases, e: Emitted, imports: seq<Import>)
    ensures EmitImports(b, e, imports[..0]) == e
  {
  }

  lemma NextImport(b: Bases, e: Emitted, imports: seq<Import>, n: nat)
    requires n < |imports|
    ensures var done := EmitImports(b, e, imports[..n]);
            && EmitImports(b, e, imports[..n + 1]) == EmitImport(b, done, imports[n])
            && |done.lookup| == |e.lookup| + n && |done.chars| == |e.chars| + ImportsChars(imports[..n])
            && ImportsChars(imports[..n]) + ImportChars(imports[n]) <= ImportsChars(imports)
            && done.bound == e.bound && done.table == e.table
  {
    hide EmitImport, ImportChars;
    assert imports[..n + 1][..n] == imports[..n];
    ImportsSize(b, e, imports[..n]);
    CharsPrefix(imports, n + 1);
  }

  lemma {:induction false} CharsPrefix(imports: seq<Import>, n: nat)
    requires n <= |imports|
    ensures ImportsChars(imports[..n]) <= ImportsChars(imports)
    decreases |imports|
  {
    hide ImportChars;
    if n < |imports| {
      var front := imports[..|imports| - 1];
      assert front[..n] == imports[..n];
      CharsPrefix(front, n);
    } else {
      assert imports[..n] == imports;
    }
  }

  /** The addresses of the areas are 32-bit and no thunk looks like an ordinal. */
  ghost predicate BasesOk(b: Bases, room: Room)
  {
    && 0 <= b.lookup && b.lookup + 4 * room.thunks < ORDINAL_FLAG && 0 <= b.bound
    && b.bound + 4 * room.thunks < ORDINAL_FLAG
    && 0 <= b.chars && b.chars + room.chars < ORDINAL_FLAG && b.many == (room.thunks > 1)
  }

  /** One file: its name, its thunks and its descriptor. */
  method EmitOne(ghost m0: Mem, buffer: array<byte>, lookup: CImageThunks, bound: CImageThunks, names: CImageChars,
                 ghost lay: Layout, ghost room: Room, ghost b: Bases, ghost e: Emitted, f: File, piidDst: nat)
    requires Writing(m0, buffer, lookup, bound, names, lay, room, b, e) && BasesOk(b, room) && FileOk(f)
    requires |e.lookup| + FileThunks(f) <= room.thunks && |e.bound| + (if f.byway then 2 else 0) <= room.thunks
    requires |e.chars| + FileChars(f) <= room.chars && |e.table| + 1 < room.tables
             && piidDst == lay.table + 20 * |e.table|
    modifies buffer, lookup, bound, names
    ensures Writing(m0, buffer, lookup, bound, names, lay, room, b, EmitFile(b, e, f))
  {
    hide Emitting, EmitImports, ImportsChars, EvenString, LayoutOk, Store, DescBytes;
    FileRoom(f);
    ghost var name := e.(chars := e.chars + EvenString(f.name));
    assert [] + EvenString(f.name) == EvenString(f.name);
    var nameVa := EmitChars(m0, buffer, lookup, bound, names, lay, room, b, e, [], f.name);
    if f.byway {
      var oft, ft := lookup.nThunkVirtAddr, bound.nThunkVirtAddr;
      EmitLookup(m0, buffer, lookup, bound, names, lay, room, b, name, ORDINAL_FLAG + 1);
      ghost var e1 := name.(lookup := e.lookup + [ORDINAL_FLAG + 1]);
      EmitBound(m0, buffer, lookup, bound, names, lay, room, b, e1, ORDINAL_FLAG + 1);
      ghost var e2 := e1.(bound := e.bound + [ORDINAL_FLAG + 1]);
      EmitLookup(m0, buffer, lookup, bound, names, lay, room, b, e2, 0);
      ghost var e3 := e2.(lookup := e2.lookup + [0]);
      EmitBound(m0, buffer, lookup, bound, names, lay, room, b, e3, 0);
      ghost var e4 := e3.(bound := e3.bound + [0]);
      assert e4.lookup == e.lookup + [ORDINAL_FLAG + 1, 0] && e4.bound == e.bound + [ORDINAL_FLAG + 1, 0];
      EmitDesc(m0, buffer, lookup, bound, names, lay, room, b, e4, Desc(oft, f.chain, nameVa, ft), piidDst);
    } else {
      var oft := lookup.Current();
      EmitNames(m0, buffer, lookup, bound, names, lay, room, b, name, f.imports);
      ghost var done := EmitImports(b, name, f.imports);
      ImportsSize(b, name, f.imports);
      EmitLookup(m0, buffer, lookup, bound, names, lay, room, b, done, 0);
      EmitDesc(m0, buffer, lookup, bound, names, lay, room, b, done.(lookup := done.lookup + [0]),
               Desc(oft, f.chain, nameVa, f.firstThunk), piidDst);
    }
  }

  lemma FileRoom(f: File)
    ensures |EvenString(f.name)| <= FileChars(f) && FileThunks(f) >= 1
    ensures !f.byway ==> |EvenString(f.name)| + ImportsChars(f.imports) == FileChars(f)
  {
    EvenStringSize(f.name);
  }

  method EmitDesc(ghost m0: Mem, buffer: array<byte>, lookup: CImageThunks, bound: CImageThunks, names: CImageChars,
                  ghost lay: Layout, ghost room: Room, ghost b: Bases, ghost e: Emitted, d: Desc, piidDst: nat)
    requires Writing(m0, buffer, lookup, bound, names, lay, room, b, e)
    requires |e.table| + 1 < room.tables && piidDst == lay.table + 20 * |e.table| && DescOk(d)
    modifies buffer
    ensures Writing(m0, buffer, lookup, bound, names, lay, room, b, e.(table := e.table + [d]))
  {
    hide Emitting, LayoutOk, Store, DescBytes;
    RoomFacts(m0, buffer[..], lay, room, e);
    LayoutRoom(lay, room, |buffer[..]|);
    PutDesc(m0, buffer[..], lay, room, e, d);
    Put(buffer, piidDst, DescBytes(d));
  }

  /** The loop over the import list. */
  method EmitAll(ghost m0: Mem, buffer: array<byte>, lookup: CImageThunks, bound: CImageThunks, names: CImageChars,
                 ghost lay: Layout, ghost room: Room, ghost b: Bases, files: seq<File>, table: nat)
    requires Writing(m0, buffer, lookup, bound, names, lay, room, b, NOTHING) && BasesOk(b, room)
    requires room.thunks == Thunks(files) && room.chars == Chars(files) && room.tables == |files| + 1
             && table == lay.table
    requires forall k :: 0 <= k < |files| ==> FileOk(files[k])
    modifies buffer, lookup, bound, names
    ensures Writing(m0, buffer, lookup, bound, names, lay, room, b, EmitFiles(b, files))
  {
    hide Writing, EmitFile, FileOk, FileThunks, FileChars, Thunks, Chars, Byways, EmitFiles, BasesOk;
    var n := 0;
    var piidDst := table;
    NoneEmitted(b, files);
    while n < |files|
      invariant 0 <= n <= |files| && piidDst == table + 20 * n
      invariant Writing(m0, buffer, lookup, bound, names, lay, room, b, EmitFiles(b, files[..n]))
    {
      NextFile(b, files, n);
      EmitOne(m0, buffer, lookup, bound, names, lay, room, b, EmitFiles(b, files[..n]), files[n], piidDst);
      piidDst := piidDst + DESC_SIZE;
      n := n + 1;
    }
    assert files[..n] == files;
  }

  lemma NoneEmitted(b: Bases, files: seq<File>)
    ensures EmitFiles(b, files[..0]) == NOTHING
  {
  }

  lemma NextFile(b: Bases, files: seq<File>, n: nat)
    requires n < |files|
    ensures var e := EmitFiles(b, files[..n]);
            && EmitFiles(b, files[..n + 1]) == EmitFile(b, e, files[n]) && |e.table| == n
            && |e.lookup| + FileThunks(files[n]) <= Thunks(files) && |e.chars| + FileChars(files[n]) <= Chars(files)
            && |e.bound| + (if files[n].byway then 2 else 0) <= Thunks(files)
  {
    hide EmitFile, FileThunks, FileChars;
    assert files[..n + 1][..n] == files[..n];
    FilesSize(b, files[..n]);
    CountsMonotone(files, n);
    CountsPrefix(files, n + 1);
    FilesSize(b, files[..n + 1]);
  }

  lemma {:induction false} CountsPrefix(files: seq<File>, n: nat)
    requires n <= |files|
    ensures Thunks(files[..n]) <= Thunks(files) && Chars(files[..n]) <= Chars(files)
    decreases |files|
  {
    hide FileThunks, FileChars;
    if n < |files| {
      var front := files[..|files| - 1];
      assert front[..n] == files[..n];
      CountsPrefix(front, n);
    } else {
      assert files[..n] == files;
    }
  }

  // ------------------------------------------------------------------------------- the section

  /** The directory entries the image had before, kept in the section header. */
  datatype Original = Original(importVa: u32, importSize: u32, boundVa: u32, boundSize: u32, iatVa: u32, iatSize: u32,
                               sizeOfImage: u32, clrFlags: u32)

  const SIGNATURE := 0x0072_7444

  /** DETOUR_SECTION_HEADER */
  function HeaderBytes(o: Original, dataOffset: int, dataSize: int, cbPrePE: int): (s: seq<byte>)
    ensures |s| == HEADER_SIZE
  {
    Bytes32(HEADER_SIZE) + Bytes32(SIGNATURE) + Bytes32(dataOffset) + Bytes32(dataSize)
    + Bytes32(o.importVa) + Bytes32(o.importSize) + Bytes32(o.boundVa) + Bytes32(o.boundSize)
    + Bytes32(o.iatVa) + Bytes32(o.iatSize) + Bytes32(o.sizeOfImage) + Bytes32(cbPrePE)
    + Bytes32(o.clrFlags) + Bytes32(0) + Bytes32(0) + Bytes32(0)
  }

  /** What reading restores: the original directory entries. */
  function ReadOriginal(m: Mem): Original
  {
    Original(Read32(m, 16), Read32(m, 20), Read32(m, 24), Read32(m, 28), Read32(m, 32), Read32(m, 36),
             Read32(m, 40), Read32(m, 48))
  }

  /** The payload reading finds in the section. */
  function ReadPayload(m: Mem): seq<byte>
  {
    var from, to := if Read32(m, 8) == 0 then Read32(m, 0) else Read32(m, 8), Read32(m, 12);
    if from <= to <= |m| then m[from..to] else []
  }

  /** The file's own headers, saved behind the section header. */
  function ReadPrePE(m: Mem): seq<byte>
  {
    if HEADER_SIZE + Read32(m, 44) <= |m| then m[HEADER_SIZE..HEADER_SIZE + Read32(m, 44)] else []
  }

  lemma HeaderWord(m: Mem, o: Original, dataOffset: int, dataSize: int, cbPrePE: int)
    requires |m| >= HEADER_SIZE && m[..HEADER_SIZE] == HeaderBytes(o, dataOffset, dataSize, cbPrePE)
    requires 0 <= dataOffset < SPACE && 0 <= dataSize < SPACE && 0 <= cbPrePE < SPACE
    ensures ReadOriginal(m) == o && Read32(m, 8) == dataOffset && Read32(m, 12) == dataSize && Read32(m, 44) == cbPrePE
  {
    hide Bytes32, Read32, HeaderBytes;
    var h := HeaderBytes(o, dataOffset, dataSize, cbPrePE);
    HeaderFields(o, dataOffset, dataSize, cbPrePE);
    assert m[8..12] == h[8..12] && m[12..16] == h[12..16] && m[16..20] == h[16..20] && m[20..24] == h[20..24];
    assert m[24..28] == h[24..28] && m[28..32] == h[28..32] && m[32..36] == h[32..36] && m[36..40] == h[36..40];
    assert m[40..44] == h[40..44] && m[44..48] == h[44..48] && m[48..52] == h[48..52];
    ReadBytes(m, 8, dataOffset);
    ReadBytes(m, 12, dataSize);
    ReadBytes(m, 16, o.importVa);
    ReadBytes(m, 20, o.importSize);
    ReadBytes(m, 24, o.boundVa);
    ReadBytes(m, 28, o.boundSize);
    ReadBytes(m, 32, o.iatVa);
    ReadBytes(m, 36, o.iatSize);
    ReadBytes(m, 40, o.sizeOfImage);
    ReadBytes(m, 44, cbPrePE);
    ReadBytes(m, 48, o.clrFlags);
  }

  lemma HeaderFields(o: Original, dataOffset: int, dataSize: int, cbPrePE: int)
    ensures var h := HeaderBytes(o, dataOffset, dataSize, cbPrePE);
            && h[8..12] == Bytes32(dataOffset) && h[12..16] == Bytes32(dataSize) && h[16..20] == Bytes32(o.importVa)
            && h[20..24] == Bytes32(o.importSize) && h[24..28] == Bytes32(o.boundVa)
            && h[28..32] == Bytes32(o.boundSize)
            && h[32..36] == Bytes32(o.iatVa) && h[36..40] == Bytes32(o.iatSize) && h[40..44] == Bytes32(o.sizeOfImage)
            && h[44..48] == Bytes32(cbPrePE) && h[48..52] == Bytes32(o.clrFlags)
  {
    hide Bytes32;
  }

  /** Everything the .detour section of these imports, saved headers and payload must hold. */
  ghost predicate SectionHolds(m: Mem, lay: Layout, base: nat, files: seq<File>, o: Original, pre: seq<byte>,
                               data: seq<byte>)
  {
    && lay == LayoutOf(|pre|, Thunks(files), Chars(files), |data|, |files| + 1) && lay.end <= |m|
    && Holds(m, lay, EmitFiles(BasesOf(lay, base, Thunks(files)), files))
    && DescAt(m, lay.table, |files|) == Desc(0, 0, 0, 0)
    && m[..HEADER_SIZE] == HeaderBytes(o, lay.data, lay.data + |data|, |pre|)
    && m[HEADER_SIZE..HEADER_SIZE + |pre|] == pre && m[lay.data..lay.data + |data|] == data
  }

  class CImage {
    const fileAlignment: nat
    var pbOutputBuffer: array<byte>
    var nOutputVirtAddr: nat
    var nOutputVirtSize: nat

    ghost predicate Valid()
      reads this
    {
      fileAlignment > 0 && pbOutputBuffer.Length % fileAlignment == 0
    }

    constructor (fileAlignment: nat)
      requires fileAlignment > 0
      ensures Valid() && this.fileAlignment == fileAlignment && fresh(pbOutputBuffer) && pbOutputBuffer.Length == 0
    {
      this.fileAlignment := fileAlignment;
      pbOutputBuffer := new byte[0];
      nOutputVirtAddr, nOutputVirtSize := 0, 0;
    }

    /** Grows the buffer to at least `size` bytes, keeping what it holds. */
    method SizeOutputBuffer(size: nat, haveMemory: bool) returns (ok: bool)
      requires Valid()
      modifies this`pbOutputBuffer
      ensures Valid() && ok == (size <= old(pbOutputBuffer.Length) || haveMemory)
      ensures pbOutputBuffer.Length >= old(pbOutputBuffer.Length) && (ok ==> size <= pbOutputBuffer.Length)
      ensures pbOutputBuffer == old(pbOutputBuffer) || fresh(pbOutputBuffer)
      ensures pbOutputBuffer[..] == old(pbOutputBuffer[..])
                                    + Fill(pbOutputBuffer.Length - old(pbOutputBuffer.Length), 0)
    {
      if pbOutputBuffer.Length >= size {
        return true;
      }
      if !haveMemory {
        return false;
      }
      var cbData := Align(if size < 1024 then 1024 else size, fileAlignment);
      AlignFacts(if size < 1024 then 1024 else size, fileAlignment);
      var pOutput := new byte[cbData](_ => 0);
      Put(pOutput, 0, pbOutputBuffer[..]);
      pbOutputBuffer := pOutput;
      ok := true;
    }

    /** The next free bytes of the buffer, zeroed, and their virtual address; NULL if there are too few. */
    method AllocateOutput(size: nat) returns (ok: bool, offset: nat, virtAddr: int)
      requires Valid()
      modifies this`nOutputVirtSize, pbOutputBuffer
      ensures Valid() && offset == old(nOutputVirtSize) && virtAddr == nOutputVirtAddr + offset
      ensures nOutputVirtSize == offset + QuadAlign(size) && ok == (nOutputVirtSize <= pbOutputBuffer.Length)
      ensures pbOutputBuffer[..] == if ok then Store(old(pbOutputBuffer[..]), offset, Fill(QuadAlign(size), 0))
                                    else old(pbOutputBuffer[..])
    {
      var cbData := QuadAlign(size);
      offset := nOutputVirtSize;
      virtAddr := nOutputVirtAddr + offset;
      nOutputVirtSize := nOutputVirtSize + cbData;
      if nOutputVirtSize > pbOutputBuffer.Length {
        return false, offset, virtAddr;
      }
      Put(pbOutputBuffer, offset, Fill(cbData, 0));
      ok := true;
    }

    /** Allocates every area but the import table, in their order; fails at the first of the header, the
        saved headers and the payload that does not fit. */
    method AllocateAreas(cbPrePE: nat, nThunks: nat, nChars: nat, cbData: nat, ghost lay: Layout, ghost nTables: nat)
      returns (ok: bool, lookup: CImageThunks?, bound: CImageThunks?, names: CImageChars?, head: nat, prePE: nat,
               body: nat)
      requires Valid() && nOutputVirtSize == 0
      requires lay == LayoutOf(cbPrePE, nThunks, nChars, cbData, nTables)
      modifies this`nOutputVirtSize, pbOutputBuffer
      ensures Valid() && ok == (lay.table <= pbOutputBuffer.Length)
      ensures ok ==> lookup != null && bound != null && names != null
      ensures ok ==> nOutputVirtSize == lay.table && head == 0 && prePE == HEADER_SIZE && body == lay.data
      ensures ok ==> fresh(lookup) && fresh(bound) && fresh(names) && lookup != bound
      ensures ok ==> lookup.buffer == bound.buffer == names.buffer == pbOutputBuffer
      ensures ok ==> lookup.nThunksMax == bound.nThunksMax == nThunks && names.nCharsMax == nChars
      ensures ok ==>
                lookup.Stands(lay.lookup, nOutputVirtAddr + lay.lookup, 0)
                && bound.Stands(lay.bound, nOutputVirtAddr + lay.bound, 0)
      ensures ok ==> names.Stands(lay.chars, nOutputVirtAddr + lay.chars, 0)
    {
      hide QuadAlign, LayoutOf, Fill, Store;
      LayoutSteps(cbPrePE, nThunks, nChars, cbData, nTables);
      LayoutGrows(cbPrePE, nThunks, nChars, cbData, nTables);
      lookup, bound, names, prePE, body := null, null, null, 0, 0;
      var va, at, ignored;
      ok, head, va := AllocateOutput(HEADER_SIZE);
      if !ok {
        return;
      }
      ok, prePE, va := AllocateOutput(cbPrePE);
      if !ok {
        return;
      }
      ignored, at, va := AllocateOutput(4 * nThunks);
      lookup := new CImageThunks(pbOutputBuffer, nThunks, at, va);
      ignored, at, va := AllocateOutput(4 * nThunks);
      bound := new CImageThunks(pbOutputBuffer, nThunks, at, va);
      ignored, at, va := AllocateOutput(nChars);
      names := new CImageChars(pbOutputBuffer, nChars, at, va);
      ok, body, va := AllocateOutput(cbData);
    }

    /** Fills in the header, the saved headers and the payload, and allocates the import table. */
    method FillAreas(header: seq<byte>, pre: seq<byte>, data: seq<byte>, head: nat, prePE: nat, body: nat,
                     nTables: nat, ghost lay: Layout, ghost room: Room)
      returns (ok: bool, piidDst: nat, rvaTable: int)
      requires Valid() && nOutputVirtSize == lay.table && head == 0 && prePE == HEADER_SIZE && body == lay.data
               && |header| == HEADER_SIZE
      requires LayoutOk(lay, room.thunks, room.chars, room.data, room.tables) && lay.table <= pbOutputBuffer.Length
               && room.tables >= 1
      requires lay.end == lay.table + QuadAlign(DESC_SIZE * nTables) && room.tables == nTables
               && room.data == |data| && HEADER_SIZE + |pre| <= lay.lookup
      modifies this`nOutputVirtSize, pbOutputBuffer
      ensures Valid() && ok == (lay.end <= pbOutputBuffer.Length)
      ensures nOutputVirtSize == lay.end && piidDst == lay.table && rvaTable == nOutputVirtAddr + lay.table
      ensures ok ==>
                var m := pbOutputBuffer[..];
                && Emitting(m, m, lay, room, NOTHING)
                && m[..HEADER_SIZE] == header && m[HEADER_SIZE..HEADER_SIZE + |pre|] == pre
                && m[lay.data..lay.data + |data|] == data
                && forall a :: lay.table <= a < lay.end ==> m[a] == 0
    {
      hide QuadAlign, Fill, Store, Emitting;
      QuadFacts(DESC_SIZE * nTables);
      ghost var c := pbOutputBuffer[..];
      Put(pbOutputBuffer, head, header);
      Put(pbOutputBuffer, prePE, pre);
      Put(pbOutputBuffer, body, data);
      ok, piidDst, rvaTable := AllocateOutput(DESC_SIZE * nTables);
      if ok { FilledBuffer(c, pbOutputBuffer[..], lay, room, header, pre, data); }
    }

    /** Everything of the section but its imports. */
    method PrepareSection(o: Original, pre: seq<byte>, data: seq<byte>, nThunks: nat, nChars: nat, nTables: nat,
                          ghost lay: Layout, ghost room: Room)
      returns (ok: bool, lookup: CImageThunks?, bound: CImageThunks?, names: CImageChars?, piidDst: nat, rvaTable: int)
      requires Valid() && nOutputVirtSize == 0 && room == Room(nThunks, nChars, |data|, nTables) && room.tables >= 1
      requires lay == LayoutOf(|pre|, room.thunks, room.chars, room.data, room.tables)
      modifies this`nOutputVirtSize, pbOutputBuffer
      ensures Valid() && ok == (lay.end <= pbOutputBuffer.Length)
      ensures ok ==> lookup != null && bound != null && names != null
      ensures ok ==> nOutputVirtSize == lay.end && piidDst == lay.table && rvaTable == nOutputVirtAddr + lay.table
      ensures ok ==> fresh(lookup) && fresh(bound) && fresh(names)
      ensures ok ==>
                Writing(pbOutputBuffer[..], pbOutputBuffer, lookup, bound, names, lay, room,
                        BasesOf(lay, nOutputVirtAddr, room.thunks), NOTHING)
      ensures ok ==>
                var m := pbOutputBuffer[..];
                && m[..HEADER_SIZE] == HeaderBytes(o, lay.data, lay.data + |data|, |pre|)
                && HEADER_SIZE + |pre| <= lay.lookup && m[HEADER_SIZE..HEADER_SIZE + |pre|] == pre
                && m[lay.data..lay.data + |data|] == data
                && forall a :: lay.table <= a < lay.end ==> m[a] == 0
    {
      hide QuadAlign, HeaderBytes, LayoutOf, Emitting, LayoutOk;
      LayoutEnd(|pre|, nThunks, nChars, |data|, nTables);
      LayoutSteps(|pre|, nThunks, nChars, |data|, nTables);
      LayoutGrows(|pre|, nThunks, nChars, |data|, nTables);
      var head, prePE, body;
      piidDst, rvaTable := 0, 0;
      ok, lookup, bound, names, head, prePE, body := AllocateAreas(|pre|, nThunks, nChars, |data|, lay, nTables);
      if !ok {
        return;
      }
      var nDataOffset := body - head;
      ok, piidDst,
      rvaTable := FillAreas(HeaderBytes(o, nDataOffset, nDataOffset + |data|, |pre|), pre, data, head, prePE,
                            body, nTables, lay, room);
    }

    /** The .detour part of Write: sizes the buffer, allocates the areas, fills them. `raw` is what goes
        into the file. It succeeds exactly if the buffer could be had and holds every area, which it does
        whenever the file alignment or the size of the saved headers is a multiple of eight. */
    method WriteSection(files: seq<File>, o: Original, pre: seq<byte>, data: seq<byte>, nNextVirtAddr: nat,
                        haveMemory: bool)
      returns (ok: bool, raw: seq<byte>, rvaImportTable: int)
      requires Valid() && forall k :: 0 <= k < |files| ==> FileOk(files[k])
      requires nNextVirtAddr + LayoutOf(|pre|, Thunks(files), Chars(files), |data|, |files| + 1).end < ORDINAL_FLAG
      modifies this, pbOutputBuffer
      ensures Valid() && (pbOutputBuffer == old(pbOutputBuffer) || fresh(pbOutputBuffer))
      ensures ok <==>
              && (SizeAsked(|pre|, Thunks(files), Chars(files), |data|, |files| + 1) <= old(pbOutputBuffer.Length)
                  || haveMemory)
              && LayoutOf(|pre|, Thunks(files), Chars(files), |data|, |files| + 1).end <= pbOutputBuffer.Length
      ensures haveMemory && (fileAlignment % 8 == 0 || |pre| % 8 == 0) ==> ok
      ensures ok ==> var lay := LayoutOf(|pre|, Thunks(files), Chars(files), |data|, |files| + 1);
                     && SectionHolds(raw, lay, nNextVirtAddr, files, o, pre, data)
                     && rvaImportTable == nNextVirtAddr + lay.table && nOutputVirtSize == lay.end
                     && |raw| == Align(nOutputVirtSize, fileAlignment)
    {
      hide Thunks, Chars, QuadAlign, Align, HeaderBytes, FileOk, Holds, EmitFiles, Emitting, LayoutOf, DescAt,
        Fill, Writing, BasesOk, LayoutOk;
      var nTables, nThunks, nChars, fNeed := CheckImportsNeeded(files);
      ghost var lay := LayoutOf(|pre|, nThunks, nChars, |data|, nTables);
      ghost var room := Room(nThunks, nChars, |data|, nTables);
      LayoutEnd(|pre|, nThunks, nChars, |data|, nTables);
      AddressRoom(lay, room, nNextVirtAddr);
      nOutputVirtAddr, nOutputVirtSize := nNextVirtAddr, 0;
      var sized := SizeOutputBuffer(SizeAsked(|pre|, nThunks, nChars, |data|, nTables), haveMemory);
      if !sized {
        return false, [], 0;
      }
      TwoPasses(|pre|, nThunks, nChars, |data|, nTables, pbOutputBuffer.Length);
      if fileAlignment % 8 == 0 { AlignedToEight(pbOutputBuffer.Length, fileAlignment); }
      var fits, lookup, bound, names, piidDst,
          rvaTable := PrepareSection(o, pre, data, nThunks, nChars, nTables, lay, room);
      if !fits {
        return false, [], 0;
      }
      ghost var m0 := pbOutputBuffer[..];
      ghost var b := BasesOf(lay, nNextVirtAddr, nThunks);
      EmitAll(m0, pbOutputBuffer, lookup, bound, names, lay, room, b, files, piidDst);
      WritingDone(m0, pbOutputBuffer, lookup, bound, names, lay, room, b, EmitFiles(b, files));
      AlignFacts(nOutputVirtSize, fileAlignment);
      AlignLeast(nOutputVirtSize, fileAlignment, pbOutputBuffer.Length);
      raw := pbOutputBuffer[..Align(nOutputVirtSize, fileAlignment)];
      FilesSize(b, files);
      SectionDone(m0, pbOutputBuffer[..], raw, lay, room, EmitFiles(b, files), pre, data);
      ok, rvaImportTable := true, rvaTable;
    }
  }

  lemma LayoutGrows(pre: nat, thunks: nat, chars: nat, data: nat, tables: nat)
    ensures var lay := LayoutOf(pre, thunks, chars, data, tables);
            HEADER_SIZE <= lay.lookup <= lay.bound <= lay.chars <= lay.data <= lay.table <= lay.end
  {
    hide QuadAlign;
    QuadFacts(pre);
    QuadFacts(4 * thunks);
    QuadFacts(chars);
    QuadFacts(data);
    QuadFacts(DESC_SIZE * tables);
  }

  lemma WritingDone(m0: Mem, buffer: array<byte>, lookup: CImageThunks, bound: CImageThunks, names: CImageChars,
                    lay: Layout, room: Room, b: Bases, e: Emitted)
    requires Writing(m0, buffer, lookup, bound, names, lay, room, b, e)
    ensures Emitting(m0, buffer[..], lay, room, e)
  {
    hide Emitting;
  }

  lemma AddressRoom(lay: Layout, room: Room, base: nat)
    requires LayoutOk(lay, room.thunks, room.chars, room.data, room.tables) && base + lay.end < ORDINAL_FLAG
    ensures BasesOk(BasesOf(lay, base, room.thunks), room)
  {
  }

  lemma LayoutSteps(pre: nat, thunks: nat, chars: nat, data: nat, tables: nat)
    ensures var lay := LayoutOf(pre, thunks, chars, data, tables);
            && lay.pre == HEADER_SIZE && lay.lookup == HEADER_SIZE + QuadAlign(pre)
            && lay.bound == lay.lookup + QuadAlign(4 * thunks)
            && lay.chars == lay.bound + QuadAlign(4 * thunks) && lay.data == lay.chars + QuadAlign(chars)
            && lay.table == lay.data + QuadAlign(data)
            && lay.end == lay.table + QuadAlign(DESC_SIZE * tables)
            && HEADER_SIZE + pre <= lay.lookup && HEADER_SIZE == QuadAlign(HEADER_SIZE)
  {
    QuadFacts(pre);
  }

  /** The buffer before the imports are emitted. */
  lemma FilledBuffer(c: Mem, m0: Mem, lay: Layout, room: Room, head: seq<byte>, pre: seq<byte>, data: seq<byte>)
    requires LayoutOk(lay, room.thunks, room.chars, room.data, room.tables) && lay.end <= |c| && room.tables >= 1
    requires |head| == HEADER_SIZE && |data| == room.data && HEADER_SIZE + |pre| <= lay.lookup
    requires lay.end - lay.table >= 20 * room.tables
    requires m0 ==
             Store(Store(Store(Store(c, 0, head), HEADER_SIZE, pre), lay.data, data), lay.table,
                   Fill(lay.end - lay.table, 0))
    ensures |m0| == |c| && Emitting(m0, m0, lay, room, NOTHING)
    ensures m0[..HEADER_SIZE] == head && m0[HEADER_SIZE..HEADER_SIZE + |pre|] == pre
            && m0[lay.data..lay.data + |data|] == data
    ensures forall a :: lay.table <= a < lay.end ==> m0[a] == 0
  {
    hide WordAt, CharAt, DescAt;
  }

  /** The finished section, cut off at the file alignment. */
  lemma SectionDone(m0: Mem, m: Mem, raw: Mem, lay: Layout, room: Room, e: Emitted, pre: seq<byte>, data: seq<byte>)
    requires Emitting(m0, m, lay, room, e) && lay.end <= |raw| <= |m| && raw == m[..|raw|]
    requires |e.table| + 1 == room.tables && |data| == room.data && HEADER_SIZE + |pre| <= lay.lookup
    requires m0[HEADER_SIZE..HEADER_SIZE + |pre|] == pre && m0[lay.data..lay.data + |data|] == data
    requires forall a :: lay.table <= a < lay.end ==> m0[a] == 0
    ensures Holds(raw, lay, e) && DescAt(raw, lay.table, |e.table|) == Desc(0, 0, 0, 0)
    ensures raw[..HEADER_SIZE] == m0[..HEADER_SIZE] && raw[HEADER_SIZE..HEADER_SIZE + |pre|] == pre
            && raw[lay.data..lay.data + |data|] == data
  {
    hide WordAt, CharAt, DescAt;
    HoldsPrefix(m, raw, lay, room, e);
    ZeroDesc(raw, lay.table, |e.table|);
  }

  lemma ZeroDesc(m: Mem, base: int, k: int)
    requires forall a :: base + 20 * k <= a < base + 20 * k + 20 ==> At(m, a) == 0
    ensures DescAt(m, base, k) == Desc(0, 0, 0, 0)
  {
    var a := base + 20 * k;
    assert At(m, a) == 0 && At(m, a + 1) == 0 && At(m, a + 2) == 0 && At(m, a + 3) == 0;
    assert At(m, a + 8) == 0 && At(m, a + 9) == 0 && At(m, a + 10) == 0 && At(m, a + 11) == 0;
    assert At(m, a + 12) == 0 && At(m, a + 13) == 0 && At(m, a + 14) == 0 && At(m, a + 15) == 0;
    assert At(m, a + 16) == 0 && At(m, a + 17) == 0 && At(m, a + 18) == 0 && At(m, a + 19) == 0;
  }

  lemma SameWord(m: Mem, n: Mem, base: nat, k: nat)
    requires |n| <= |m| && n == m[..|n|] && base + 4 * k + 4 <= |n|
    ensures WordAt(n, base, k) == WordAt(m, base, k)
  {
  }

  lemma SameDesc(m: Mem, n: Mem, base: nat, k: nat)
    requires |n| <= |m| && n == m[..|n|] && base + 20 * k + 20 <= |n|
    ensures DescAt(n, base, k) == DescAt(m, base, k)
  {
    assert forall i :: 0 <= i < |n| ==> At(n, i) == At(m, i);
  }

  lemma HoldsPrefix(m: Mem, raw: Mem, lay: Layout, room: Room, e: Emitted)
    requires Holds(m, lay, e) && LayoutOk(lay, room.thunks, room.chars, room.data, room.tables)
             && lay.end <= |raw| <= |m| && raw == m[..|raw|]
    requires |e.lookup| <= room.thunks && |e.bound| <= room.thunks && |e.chars| <= room.chars && |e.table| < room.tables
    ensures Holds(raw, lay, e)
  {
    hide WordAt, DescAt;
    forall k | 0 <= k < |e.lookup|
      ensures WordAt(raw, lay.lookup, k) == e.lookup[k] { SameWord(m, raw, lay.lookup, k); }
    forall k | 0 <= k < |e.bound| ensures WordAt(raw, lay.bound, k) == e.bound[k] { SameWord(m, raw, lay.bound, k); }
    forall k | 0 <= k < |e.chars|
      ensures CharAt(raw, lay.chars, k) == e.chars[k] { assert CharAt(m, lay.chars, k) == e.chars[k]; }
    forall k | 0 <= k < |e.table| ensures DescAt(raw, lay.table, k) == e.table[k] { SameDesc(m, raw, lay.table, k); }
  }

  /** Write and read: the section recovers the saved headers, the payload, the original directories and
      the import list, provided no other section's raw data covers its addresses. */
  lemma SectionRoundTrip(others: seq<Section>, raw: Mem, lay: Layout, base: nat, files: seq<File>, o: Original,
                         pre: seq<byte>, data: seq<byte>)
    requires SectionHolds(raw, lay, base, files, o, pre, data) && (forall k :: 0 <= k < |files| ==> FileOk(files[k]))
    requires base + |raw| < ORDINAL_FLAG && Clear(others, Section(base, raw))
             && BoundElsewhere(files, Section(base, raw))
    ensures ReadOriginal(raw) == o && ReadPayload(raw) == data && ReadPrePE(raw) == pre
    ensures ReadTable(others + [Section(base, raw)], base + lay.table, base, base + |raw|) ==
            Some(ShownFiles(files)) <==>
            Readable(others + [Section(base, raw)], files)
  {
    hide Holds, EmitFiles, ReadTable, ShownFiles, Readable, Thunks, Chars, Clear, BoundElsewhere, FileOk, DescAt,
      ReadOriginal, ReadPayload, ReadPrePE, HeaderBytes, LayoutOf, Read32;
    LayoutPlain(|pre|, Thunks(files), Chars(files), |data|, |files| + 1);
    HeaderRoundTrip(raw, lay, o, pre, data);
    WrittenSection(others, raw, lay, base, files);
  }

  lemma LayoutPlain(pre: nat, thunks: nat, chars: nat, data: nat, tables: nat)
    ensures var lay := LayoutOf(pre, thunks, chars, data, tables);
            HEADER_SIZE + pre <= lay.lookup <= lay.data && lay.data + data <= lay.end
            && LayoutOk(lay, thunks, chars, 0, tables)
  {
    hide QuadAlign;
    LayoutEnd(pre, thunks, chars, data, tables);
    LayoutSteps(pre, thunks, chars, data, tables);
  }

  lemma HeaderRoundTrip(raw: Mem, lay: Layout, o: Original, pre: seq<byte>, data: seq<byte>)
    requires HEADER_SIZE + |pre| <= |raw| < SPACE && HEADER_SIZE <= lay.data && lay.data + |data| <= |raw|
    requires raw[..HEADER_SIZE] == HeaderBytes(o, lay.data, lay.data + |data|, |pre|)
    requires raw[HEADER_SIZE..HEADER_SIZE + |pre|] == pre && raw[lay.data..lay.data + |data|] == data
    ensures ReadOriginal(raw) == o && ReadPayload(raw) == data && ReadPrePE(raw) == pre
  {
    hide HeaderBytes, ReadOriginal, Read32;
    HeaderWord(raw, o, lay.data, lay.data + |data|, |pre|);
  }

  lemma WrittenSection(others: seq<Section>, raw: Mem, lay: Layout, base: nat, files: seq<File>)
    requires LayoutOk(lay, Thunks(files), Chars(files), 0, |files| + 1) && lay.end <= |raw| && lay.lookup > 0
    requires Holds(raw, lay, EmitFiles(BasesOf(lay, base, Thunks(files)), files))
             && DescAt(raw, lay.table, |files|) == Desc(0, 0, 0, 0)
    requires forall k :: 0 <= k < |files| ==> FileOk(files[k])
    requires base + |raw| < ORDINAL_FLAG && Clear(others, Section(base, raw))
             && BoundElsewhere(files, Section(base, raw))
    ensures ReadTable(others + [Section(base, raw)], base + lay.table, base, base + |raw|) ==
            Some(ShownFiles(files)) <==>
            Readable(others + [Section(base, raw)], files)
  {
    hide Holds, EmitFiles, ReadTable, ShownFiles, Readable, Thunks, Chars, Byways, Clear, BoundElsewhere, FileOk,
      DescAt;
    FilesSize(BasesOf(lay, base, Thunks(files)), files);
    TableRoundTrip(others, Section(base, raw), lay, files);
  }
}

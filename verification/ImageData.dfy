/** The payload store of a detoured image (class CImageData): a flat byte buffer of records, each a
    length, a reserved word, a GUID and its data, used as a map from GUID to bytes. */
module ImageData {
  import opened Memory

  const HEADER := 24 // sizeof(DETOUR_SECTION_RECORD)

  datatype Record = Record(guid: seq<byte>, data: seq<byte>)

  predicate RecordOk(r: Record) { |r.guid| == 16 && HEADER + |r.data| < SPACE }

  ghost predicate RecordsOk(records: seq<Record>) { forall i :: 0 <= i < |records| ==> RecordOk(records[i]) }

  /** One record as it lies in the buffer. */
  function Encoded(r: Record): seq<byte> { Bytes32(HEADER + |r.data|) + Bytes32(0) + r.guid + r.data }

  /** The records tiling a buffer. */
  function Flat(records: seq<Record>): seq<byte>
  {
    if records == [] then [] else Encoded(records[0]) + Flat(records[1..])
  }

  function Size(records: seq<Record>): nat { |Flat(records)| }

  /** Offset of record `k`. */
  function Offset(records: seq<Record>, k: nat): nat
    requires k <= |records|
  {
    |Flat(records[..k])|
  }

  /** Data as Set stores it: zero-padded to eight bytes. */
  function Padded(data: seq<byte>): seq<byte> { data + Fill(QuadAlign(|data|) - |data|, 0) }

  // ------------------------------------------------------------------------------ the records

  lemma {:induction false} FlatSplit(a: seq<Record>, b: seq<Record>)
    ensures Flat(a + b) == Flat(a) + Flat(b)
  {
    if a == [] {
      assert a + b == b;
    } else {
      assert (a + b)[1..] == a[1..] + b;
      FlatSplit(a[1..], b);
    }
  }

  lemma FlatOne(r: Record)
    ensures Flat([r]) == Encoded(r)
  {
  }

  lemma FlatAt(records: seq<Record>, k: nat)
    requires k < |records|
    ensures Flat(records) == Flat(records[..k]) + Encoded(records[k]) + Flat(records[k + 1..])
    ensures Offset(records, k + 1) == Offset(records, k) + |Encoded(records[k])|
    ensures Offset(records, k + 1) <= Size(records)
  {
    hide Encoded;
    assert records == records[..k] + ([records[k]] + records[k + 1..]);
    FlatSplit(records[..k], [records[k]] + records[k + 1..]);
    FlatSplit([records[k]], records[k + 1..]);
    FlatOne(records[k]);
    assert records[..k + 1] == records[..k] + [records[k]];
    FlatSplit(records[..k], [records[k]]);
  }

  lemma FlatEnds(records: seq<Record>)
    ensures Offset(records, 0) == 0 && Offset(records, |records|) == Size(records)
  {
    assert records[..|records|] == records && records[..0] == [];
  }

  lemma HeaderOf(r: Record)
    requires RecordOk(r)
    ensures var s := Encoded(r);
            && |s| == HEADER + |r.data| && Read32(s, 0) == HEADER + |r.data| && Read32(s, 4) == 0
            && s[8..24] == r.guid && s[24..] == r.data
  {
    var s := Encoded(r);
    hide Bytes32, Read32;
    assert s[0..4] == Bytes32(HEADER + |r.data|) && s[4..8] == Bytes32(0);
    ReadBytes(s, 0, HEADER + |r.data|);
    ReadBytes(s, 4, 0);
  }

  lemma ReadSlice(s: seq<byte>, at: nat, t: seq<byte>, a: nat)
    requires at + |t| <= |s| && s[at..at + |t|] == t && a + 4 <= |t|
    ensures Read32(s, at + a) == Read32(t, a)
  {
    assert forall i :: 0 <= i < |t| ==> s[at + i] == t[i];
  }

  /** What the buffer holds at the start of record `k`. */
  lemma RecordAt(records: seq<Record>, k: nat)
    requires RecordsOk(records) && k < |records|
    ensures var s, at, r := Flat(records), Offset(records, k), records[k];
            && at + HEADER + |r.data| == Offset(records, k + 1) <= |s|
            && Read32(s, at) == HEADER + |r.data| && Read32(s, at + 4) == 0
            && s[at + 8..at + 24] == r.guid && s[at + 24..at + HEADER + |r.data|] == r.data
  {
    hide Read32, Bytes32, Flat;
    var s, at, r := Flat(records), Offset(records, k), records[k];
    FlatAt(records, k);
    HeaderOf(r);
    hide Encoded;
    var e := Encoded(r);
    assert s[at..at + |e|] == e;
    ReadSlice(s, at, e, 0);
    ReadSlice(s, at, e, 4);
    assert s[at + 8..at + 24] == s[at..at + |e|][8..24];
    assert s[at + 24..at + |e|] == s[at..at + |e|][24..];
  }

  // ---------------------------------------------------------------------------------- the map

  /** Index of the first record of `guid`; the number of records if there is none. */
  function Index(records: seq<Record>, guid: seq<byte>): (k: nat)
    ensures k <= |records|
    ensures forall i :: 0 <= i < k ==> records[i].guid != guid
    ensures k < |records| ==> records[k].guid == guid
  {
    if records == [] then 0
    else if records[0].guid == guid then 0
    else 1 + Index(records[1..], guid)
  }

  function Without(records: seq<Record>, guid: seq<byte>): seq<Record>
  {
    var k := Index(records, guid);
    if k == |records| then records else records[..k] + records[k + 1..]
  }

  function Stored(records: seq<Record>, guid: seq<byte>, data: seq<byte>): seq<Record>
  {
    Without(records, guid) + [Record(guid, Padded(data))]
  }

  ghost predicate Unique(records: seq<Record>)
  {
    forall i, j :: 0 <= i < j < |records| ==> records[i].guid != records[j].guid
  }

  function ToMap(records: seq<Record>): map<seq<byte>, seq<byte>>
  {
    if records == [] then map[] else ToMap(records[1..])[records[0].guid := records[0].data]
  }

  lemma {:induction false} MapIndex(records: seq<Record>, guid: seq<byte>)
    ensures var k := Index(records, guid);
            (guid in ToMap(records) <==> k < |records|) && (k < |records| ==> ToMap(records)[guid] == records[k].data)
  {
    if records != [] && records[0].guid != guid { MapIndex(records[1..], guid); }
  }

  lemma IndexOf(records: seq<Record>, guid: seq<byte>, k: nat)
    requires k <= |records| && (forall i :: 0 <= i < k ==> records[i].guid != guid)
    requires k < |records| ==> records[k].guid == guid
    ensures Index(records, guid) == k
  {
  }

  lemma WithoutFacts(records: seq<Record>, guid: seq<byte>)
    requires RecordsOk(records) && Unique(records)
    ensures var n := Without(records, guid);
            RecordsOk(n) && Unique(n) && forall i :: 0 <= i < |n| ==> n[i].guid != guid && n[i] in records
  {
    hide Index, RecordOk;
    var n, k := Without(records, guid), Index(records, guid);
    assert forall i :: 0 <= i < |n| ==> n[i] == records[if i < k then i else i + 1];
  }

  lemma WithoutOk(records: seq<Record>, guid: seq<byte>)
    requires RecordsOk(records)
    ensures RecordsOk(Without(records, guid))
  {
    hide Index, RecordOk;
    var n, k := Without(records, guid), Index(records, guid);
    assert forall i :: 0 <= i < |n| ==> n[i] == records[if i < k then i else i + 1];
  }

  /** Neither deleting nor storing gives a GUID a second record. */
  lemma WithoutUnique(records: seq<Record>, guid: seq<byte>)
    requires RecordsOk(records)
    ensures Unique(records) ==> Unique(Without(records, guid))
  {
    if Unique(records) { WithoutFacts(records, guid); }
  }

  lemma StoredUnique(records: seq<Record>, guid: seq<byte>, data: seq<byte>)
    requires RecordsOk(records)
    ensures Unique(records) ==> Unique(Stored(records, guid, data))
  {
    hide Without, Padded;
    if Unique(records) { WithoutFacts(records, guid); }
  }

  /** Delete removes exactly the GUID's entry. */
  lemma DeleteRefines(records: seq<Record>, guid: seq<byte>)
    requires RecordsOk(records) && Unique(records)
    ensures RecordsOk(Without(records, guid)) && Unique(Without(records, guid))
    ensures ToMap(Without(records, guid)) == ToMap(records) - {guid}
  {
    hide ToMap, Without, Index;
    WithoutFacts(records, guid);
    var n := Without(records, guid);
    forall g ensures (g in ToMap(n) <==> g in ToMap(records) && g != guid)
                     && (g in ToMap(n) ==> ToMap(n)[g] == ToMap(records)[g]) {
      MapIndex(records, g);
      MapIndex(n, g);
      WithoutIndex(records, guid, g);
    }
  }

  lemma WithoutIndex(records: seq<Record>, guid: seq<byte>, g: seq<byte>)
    requires Unique(records)
    ensures var n := Without(records, guid);
            && (Index(n, g) < |n| <==> Index(records, g) < |records| && g != guid)
            && (Index(n, g) < |n| ==> n[Index(n, g)] == records[Index(records, g)])
  {
    hide ToMap, Flat, Index;
    var k, j := Index(records, guid), Index(records, g);
    var n := Without(records, guid);
    if k < |records| {
      assert forall i :: 0 <= i < |n| ==> n[i] == records[if i < k then i else i + 1];
      if g != guid && j < |records| {
        IndexOf(n, g, if j < k then j else j - 1);
      } else {
        IndexOf(n, g, |n|);
      }
    }
  }

  /** Set makes the GUID's entry the padded data and keeps every other entry. */
  lemma SetRefines(records: seq<Record>, guid: seq<byte>, data: seq<byte>)
    requires RecordsOk(records) && Unique(records) && RecordOk(Record(guid, Padded(data)))
    ensures RecordsOk(Stored(records, guid, data)) && Unique(Stored(records, guid, data))
    ensures ToMap(Stored(records, guid, data)) == ToMap(records)[guid := Padded(data)]
  {
    hide ToMap, Without, Index, Padded;
    DeleteRefines(records, guid);
    WithoutFacts(records, guid);
    AppendMap(Without(records, guid), Record(guid, Padded(data)));
    assert ToMap(records)[guid := Padded(data)] == (ToMap(records) - {guid})[guid := Padded(data)];
  }

  lemma {:induction false} AppendMap(records: seq<Record>, r: Record)
    requires forall i :: 0 <= i < |records| ==> records[i].guid != r.guid
    ensures ToMap(records + [r]) == ToMap(records)[r.guid := r.data]
  {
    if records == [] {
      assert records + [r] == [r] && [r][1..] == [];
    } else {
      assert (records + [r])[1..] == records[1..] + [r];
      AppendMap(records[1..], r);
    }
  }

  /** Padding adds fewer than eight zeros and makes the length a multiple of eight. */
  lemma PaddedFacts(data: seq<byte>)
    ensures |Padded(data)| == QuadAlign(|data|) && |Padded(data)| % 8 == 0 && |data| <= |Padded(data)| < |data| + 8
    ensures Padded(data)[..|data|] == data
    ensures forall i :: |data| <= i < |Padded(data)| ==> Padded(data)[i] == 0
  {
  }

  // ------------------------------------------------------------------------------- the buffer

  /** Where a call found or put its data: an offset in the buffer, or NULL. */
  datatype Found = Null | At(offset: nat, size: nat)

  /** CopyMemory */
  method CopyInto(a: array<byte>, at: nat, s: seq<byte>)
    requires at + |s| <= a.Length
    modifies a
    ensures a[..] == old(a[..at]) + s + old(a[at + |s|..])
  {
    ghost var was := a[..];
    var i := 0;
    while i < |s|
      invariant 0 <= i <= |s|
      invariant a[..] == was[..at] + s[..i] + was[at + i..]
    {
      a[at + i] := s[i];
      i := i + 1;
    }
  }

  /** MoveMemory to a lower address. */
  method MoveDown(a: array<byte>, to: nat, from: nat, n: nat)
    requires to <= from && from + n <= a.Length
    modifies a
    ensures forall j :: 0 <= j < a.Length ==> a[j] == old(a[if to <= j < to + n then j + (from - to) else j])
  {
    var i := 0;
    while i < n
      invariant 0 <= i <= n
      invariant forall j :: 0 <= j < a.Length ==> a[j] == old(a[if to <= j < to + i then j + (from - to) else j])
    {
      a[to + i] := a[from + i];
      i := i + 1;
    }
  }

  /** Takes `gone` bytes at `at` out of the first `size`. */
  method RemoveBytes(a: array<byte>, at: nat, gone: nat, size: nat)
    requires at + gone <= size <= a.Length
    modifies a
    ensures a[..size - gone] == old(a[..at]) + old(a[at + gone..size])
  {
    var cbRest := size - (at + gone);
    if cbRest > 0 {
      MoveDown(a, at, at + gone, cbRest);
    }
  }

  /** The bytes Set is asked to store: zeros if it is given none. */
  function Given(data: array?<byte>, size: nat): (s: seq<byte>)
    requires data != null ==> size <= data.Length
    reads data
    ensures |s| == size
  {
    if data == null then Fill(size, 0) else data[..size]
  }

  /** Writes data and its padding. */
  method WritePadded(a: array<byte>, at: nat, data: array?<byte>, size: nat)
    requires (data != null ==> size <= data.Length && data != a) && at + QuadAlign(size) <= a.Length
    modifies a
    ensures a[..at] == old(a[..at])
    ensures a[at..at + QuadAlign(size)] == Padded(old(Given(data, size)))
  {
    hide Fill, QuadAlign;
    QuadAligned(size);
    var cbAligned := QuadAlign(size);
    if data != null {
      CopyInto(a, at, data[..size]);
      CopyInto(a, at + size, Fill(cbAligned - size, 0));
    } else {
      CopyInto(a, at, Fill(cbAligned, 0));
      FillTwice(size, cbAligned - size);
    }
  }

  lemma QuadAligned(size: nat)
    ensures size <= QuadAlign(size) < size + 8
  {
  }

  /** Writes a record's header, data and padding. */
  method WriteRecord(a: array<byte>, at: nat, guid: seq<byte>, data: array?<byte>, size: nat)
    requires |guid| == 16 && (data != null ==> size <= data.Length && data != a)
    requires at + HEADER + QuadAlign(size) <= a.Length
    modifies a
    ensures a[..at] == old(a[..at])
    ensures a[at..at + HEADER + QuadAlign(size)] == Encoded(Record(guid, Padded(old(Given(data, size)))))
  {
    hide Bytes32, Padded, QuadAlign, Given;
    PaddedFacts(Given(data, size));
    var header := Bytes32(HEADER + QuadAlign(size)) + Bytes32(0) + guid;
    CopyInto(a, at, header);
    assert a[..at + HEADER] == old(a[..at]) + header;
    WritePadded(a, at + HEADER, data, size);
    WrittenInOrder(a[..], at, at + HEADER, at + HEADER + QuadAlign(size));
    assert a[..at + HEADER][at..] == header && a[..at + HEADER][..at] == a[..at];
  }

  lemma WrittenInOrder(s: seq<byte>, a: nat, b: nat, c: nat)
    requires a <= b <= c <= |s|
    ensures s[a..c] == s[..b][a..] + s[b..c]
  {
  }

  lemma FillTwice(a: nat, b: nat)
    ensures Fill(a, 0) + Fill(b, 0) == Fill(a + b, 0)
  {
  }

  class CImageData {
    var pbData: array?<byte>
    var cbData: nat
    var cbAlloc: nat
    ghost var records: seq<Record>

    ghost predicate Valid()
      reads this, pbData
    {
      && RecordsOk(records) && Size(records) == cbData && cbData < SPACE
      && (pbData == null ==> cbData == 0 && cbAlloc == 0)
      && (pbData != null ==>
            && cbData <= pbData.Length && (cbAlloc == 0 || cbAlloc == pbData.Length)
            && pbData[..cbData] == Flat(records))
    }

    /** Data found in an image: not owned, and copied before it grows. */
    constructor (data: array<byte>, size: nat, ghost held: seq<Record>)
      requires size <= data.Length && size < SPACE && RecordsOk(held) && data[..size] == Flat(held)
      ensures Valid() && records == held && pbData == data && cbData == size
    {
      pbData, cbData, cbAlloc := data, size, 0;
      records := held;
    }

    method Purge()
      requires Valid()
      modifies this
      ensures Valid() && records == [] && cbData == 0 && pbData == old(pbData)
    {
      cbData := 0;
      records := [];
    }

    /** The scan of every record's header. */
    method IsValid() returns (valid: bool)
      requires Valid()
      ensures valid
    {
      hide Flat, Encoded;
      if pbData == null {
        return true;
      }
      var at := 0;
      ghost var k := 0;
      FlatEnds(records);
      while at < cbData
        invariant k <= |records| && at == Offset(records, k) && at <= cbData
        decreases |records| - k
      {
        RecordAt(records, k);
        var cbBytes, reserved := Read32(pbData[..cbData], at), Read32(pbData[..cbData], at + 4);
        if cbBytes < HEADER || reserved != 0 {
          return false;
        }
        at := at + cbBytes;
        k := k + 1;
      }
      valid := true;
    }

    /** The first record of the GUID. */
    method Find(guid: seq<byte>) returns (found: Found)
      requires Valid()
      ensures found == if guid in ToMap(records)
                       then At(Offset(records, Index(records, guid)) + HEADER, |ToMap(records)[guid]|) else Null
      ensures found.At? ==>
                found.offset + found.size <= cbData && pbData != null
                && pbData[found.offset..found.offset + found.size] == ToMap(records)[guid]
    {
      hide Flat, Encoded, ToMap, Index;
      MapIndex(records, guid);
      FlatEnds(records);
      var nOffset := 0;
      ghost var k := 0;
      while nOffset < cbData
        invariant k <= |records| && nOffset == Offset(records, k) && nOffset <= cbData
        invariant forall i :: 0 <= i < k ==> records[i].guid != guid
        decreases |records| - k
      {
        RecordAt(records, k);
        ReadRecord(pbData, cbData, records, k);
        var cbBytes := Read32(pbData[..cbData], nOffset);
        if cbBytes > cbData {
          break;
        }
        if cbBytes >= HEADER && pbData[nOffset + 8..nOffset + 24] == guid {
          IndexIs(records, guid, k);
          return At(nOffset + HEADER, cbBytes - HEADER);
        }
        nOffset := nOffset + cbBytes;
        k := k + 1;
      }
      AllRead(records, k, nOffset, cbData);
      IndexIs(records, guid, |records|);
      found := Null;
    }

    /** Shifts the records behind the found one down over it. */
    method Delete(guid: seq<byte>) returns (ok: bool)
      requires Valid()
      modifies this, pbData
      ensures Valid() && ok == (guid in ToMap(old(records)))
      ensures records == Without(old(records), guid) && (old(Unique(records)) ==> Unique(records))
      ensures pbData == old(pbData) && cbAlloc == old(cbAlloc)
      ensures cbData <= old(cbData)
    {
      hide Flat, Encoded, ToMap, Index, Offset, Without, Unique, RecordsOk;
      WithoutOk(records, guid);
      WithoutUnique(records, guid);
      MapIndex(records, guid);
      WithoutForm(records, guid);
      var found := Find(guid);
      if found == Null {
        return false;
      }
      ghost var k := Index(records, guid);
      var at, cbGone := found.offset - HEADER, found.size + HEADER;
      Around(pbData[..cbData], records, k);
      assert pbData[..cbData][..at] == pbData[..at] && pbData[..cbData][at + cbGone..] == pbData[at + cbGone..cbData];
      RemoveBytes(pbData, at, cbGone, cbData);
      cbData := cbData - cbGone;
      RemovedFlat(records, k);
      records := records[..k] + records[k + 1..];
      ok := true;
    }

    /** Grows the buffer to `size` bytes; `haveMemory` says whether a new one could be allocated. */
    method SizeTo(size: nat, haveMemory: bool) returns (ok: bool)
      requires Valid() && size >= cbData
      modifies this`pbData, this`cbAlloc
      ensures Valid() && ok == (size <= old(cbAlloc) || haveMemory)
      ensures pbData == old(pbData) || fresh(pbData)
      ensures ok && size > 0 ==> pbData != null && size <= pbData.Length && cbAlloc == pbData.Length
    {
      hide Flat, Encoded;
      if size <= cbAlloc {
        return true;
      }
      if !haveMemory {
        return false;
      }
      var grown := new byte[size](_ => 0);
      if pbData != null {
        CopyInto(grown, 0, pbData[..cbData]);
        assert grown[..cbData] == pbData[..cbData];
      } else {
        FlatEmpty(records);
      }
      pbData, cbAlloc := grown, size;
      ok := true;
    }

    /** Set: the GUID's record goes to the end with its data padded. When memory runs out the old
        record is gone all the same. */
    method Set(guid: seq<byte>, data: array?<byte>, size: nat, haveMemory: bool) returns (found: Found)
      requires Valid() && |guid| == 16 && (data != null ==> size <= data.Length && data != pbData)
      requires cbData + QuadAlign(size) + HEADER < SPACE
      modifies this, pbData
      ensures Valid() && (pbData == old(pbData) || fresh(pbData))
      ensures var bytes := old(Given(data, size));
              if found.At? then
                && records == Stored(old(records), guid, bytes)
                && found.size == QuadAlign(size) && found.offset + found.size == cbData
                && pbData != null && pbData[found.offset..cbData] == Padded(bytes)
              else records == Without(old(records), guid)
      ensures haveMemory ==> found.At?
      ensures old(Unique(records)) ==> Unique(records)
    {
      hide Flat, Encoded, ToMap, Index, Without, Padded, Fill, Unique, RecordsOk, Size;
      ghost var bytes := Given(data, size);
      StoredUnique(records, guid, bytes);
      var ignored := Delete(guid);
      ghost var kept := records;
      var cbAligned := QuadAlign(size);
      var grown := SizeTo(cbData + cbAligned + HEADER, haveMemory);
      if !grown {
        return Null;
      }
      var at := cbData;
      assert pbData[..at] == Flat(kept);
      WriteRecord(pbData, at, guid, data, size);
      cbData := cbData + cbAligned + HEADER;
      PaddedFacts(bytes);
      ghost var r := Record(guid, Padded(bytes));
      AppendedOk(kept, r);
      ghost var now := pbData[..];
      assert now[..at] == pbData[..at] && now[at..cbData] == pbData[at..cbData];
      RecordAdded(now, at, cbData, kept, r);
      assert pbData[..cbData] == now[..cbData] && pbData[at + HEADER..cbData] == now[at + HEADER..cbData];
      records := kept + [r];
      found := At(at + HEADER, cbAligned);
    }

    /** The record at the position, which moves on to the next one; NULL past the last. */
    method Enumerate(position: nat, ghost k: nat) returns (guid: seq<byte>, found: Found, next: nat)
      requires Valid() && k <= |records| && position == Offset(records, k)
      ensures if k < |records| then
                && guid == records[k].guid && found == At(position + HEADER, |records[k].data|)
                && next == Offset(records, k + 1)
                && found.offset + found.size <= cbData && pbData != null
                && pbData[found.offset..found.offset + found.size] == records[k].data
              else found == Null && next == position && guid == Fill(16, 0)
    {
      hide Flat, Encoded;
      EnumerateEnd(records, k, cbData);
      if cbData < position + HEADER {
        return Fill(16, 0), Null, position;
      }
      RecordAt(records, k);
      ReadRecord(pbData, cbData, records, k);
      var cbBytes := Read32(pbData[..cbData], position);
      guid := pbData[position + 8..position + 24];
      found := At(position + HEADER, cbBytes - HEADER);
      next := position + cbBytes;
    }

    /** Enumerating from zero until NULL visits every record exactly once, in order. */
    method EnumerateAll() returns (visited: seq<Record>)
      requires Valid()
      ensures visited == records
    {
      hide Flat, Encoded, Fill, Offset;
      visited := [];
      var position := 0;
      OffsetZero(records);
      while true
        invariant |visited| <= |records| && visited == records[..|visited|] && position == Offset(records, |visited|)
        decreases |records| - |visited|
      {
        var guid, found, next := Enumerate(position, |visited|);
        if found == Null {
          break;
        }
        visited := visited + [Record(guid, pbData[found.offset..found.offset + found.size])];
        position := next;
      }
    }
  }

  lemma OffsetZero(records: seq<Record>)
    ensures Offset(records, 0) == 0
  {
    assert records[..0] == [];
  }

  lemma FlatEmpty(records: seq<Record>)
    ensures Size(records) == 0 ==> Flat(records) == []
  {
  }

  lemma IndexIs(records: seq<Record>, guid: seq<byte>, k: nat)
    requires k <= |records| && (forall i :: 0 <= i < k ==> records[i].guid != guid)
             && (k < |records| ==> records[k].guid == guid)
    ensures Index(records, guid) == k
  {
  }

  /** The bytes of record `k` read through the array. */
  lemma ReadRecord(a: array<byte>, size: nat, records: seq<Record>, k: nat)
    requires size <= a.Length && a[..size] == Flat(records) && RecordsOk(records) && k < |records|
    ensures var at, r := Offset(records, k), records[k];
            && at + HEADER + |r.data| <= size && Read32(a[..size], at) == HEADER + |r.data|
            && a[at + 8..at + 24] == r.guid && a[at + 24..at + HEADER + |r.data|] == r.data
  {
    hide Flat, Read32;
    RecordAt(records, k);
    var at, r, s := Offset(records, k), records[k], a[..size];
    assert a[at + 8..at + 24] == s[at + 8..at + 24];
    assert a[at + 24..at + HEADER + |r.data|] == s[at + 24..at + HEADER + |r.data|];
  }

  lemma AllRead(records: seq<Record>, k: nat, at: nat, size: nat)
    requires RecordsOk(records) && k <= |records| && at == Offset(records, k) && size == Size(records) && at >= size
    ensures k == |records|
  {
    hide Flat, Encoded;
    if k < |records| { RecordAt(records, k); }
  }

  lemma EnumerateEnd(records: seq<Record>, k: nat, size: nat)
    requires RecordsOk(records) && k <= |records| && size == Size(records)
    ensures size < Offset(records, k) + HEADER <==> k == |records|
  {
    hide Flat, Encoded;
    FlatEnds(records);
    if k < |records| { RecordAt(records, k); }
  }

  /** The buffer before and behind record `k`. */
  lemma Around(s: seq<byte>, records: seq<Record>, k: nat)
    requires RecordsOk(records) && s == Flat(records) && k < |records|
    ensures var at, end := Offset(records, k), Offset(records, k) + HEADER + |records[k].data|;
            end <= |s| && s[..at] == Flat(records[..k]) && s[end..] == Flat(records[k + 1..])
  {
    hide Flat, Encoded;
    FlatAt(records, k);
    RecordAt(records, k);
  }

  lemma WithoutForm(records: seq<Record>, guid: seq<byte>)
    ensures var k := Index(records, guid);
            Without(records, guid) == if k == |records| then records else records[..k] + records[k + 1..]
  {
  }

  lemma RemovedFlat(records: seq<Record>, k: nat)
    requires RecordsOk(records) && k < |records|
    ensures Flat(records[..k] + records[k + 1..]) == Flat(records[..k]) + Flat(records[k + 1..])
    ensures RecordsOk(records[..k] + records[k + 1..])
  {
    hide Flat;
    FlatSplit(records[..k], records[k + 1..]);
  }

  lemma RecordAdded(a: seq<byte>, at: nat, n: nat, records: seq<Record>, r: Record)
    requires RecordOk(r) && at <= n <= |a| && a[..at] == Flat(records) && a[at..n] == Encoded(r)
    ensures at + HEADER <= n && a[..n] == Flat(records + [r]) && a[at + HEADER..n] == r.data
  {
    hide Flat, Encoded;
    HeaderOf(r);
    assert a[..n][..at] == a[..at] && a[..n][at..] == a[at..n];
    Appended(a[..n], at, records, r);
    assert a[at + HEADER..n] == a[at..n][HEADER..];
  }

  lemma AppendedOk(records: seq<Record>, r: Record)
    requires RecordsOk(records) && RecordOk(r)
    ensures RecordsOk(records + [r]) && Size(records + [r]) == Size(records) + HEADER + |r.data|
  {
    hide Flat, Bytes32;
    FlatSplit(records, [r]);
    FlatOne(r);
  }

  lemma Appended(s: seq<byte>, at: nat, records: seq<Record>, r: Record)
    requires at <= |s| && s[..at] == Flat(records) && s[at..] == Encoded(r)
    ensures s == Flat(records + [r])
  {
    hide Encoded;
    FlatSplit(records, [r]);
    FlatOne(r);
    assert s == s[..at] + s[at..];
  }
}

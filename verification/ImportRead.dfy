/** Reading an import table back through the section headers (the import parts of CImage::Read). */
module ImportRead {
  import opened Options
  import opened Memory
  import opened ImportEmit

  /** A section header and the raw bytes it stands for. */
  datatype Section = Section(va: nat, raw: seq<byte>)

  /** A pointer into the mapped file: a section and an offset in it. */
  datatype Pointer = Pointer(raw: seq<byte>, off: int)

  predicate Covers(s: Section, rva: int) { s.va <= rva < s.va + |s.raw| }

  /** RvaToVa: through the first section whose raw data covers the address. */
  function RvaToVa(sections: seq<Section>, rva: int): Option<Pointer>
  {
    if rva == 0 || sections == [] then None
    else if Covers(sections[0], rva) then Some(Pointer(sections[0].raw, rva - sections[0].va))
    else RvaToVa(sections[1..], rva)
  }

  // Fields at a pointer.
  function WordAt(m: Mem, base: int, k: int): u32 { Read32(m, base + 4 * k) }

  function CharAt(m: Mem, base: int, k: int): byte { At(m, base + k) }

  function DescAt(m: Mem, base: int, k: int): Desc
  {
    var a := base + 20 * k;
    Desc(Read32(m, a), Read32(m, a + 8), Read32(m, a + 12), Read32(m, a + 16))
  }

  /** The string at `a`, up to its NUL. */
  function StringAt(m: Mem, a: int): seq<byte>
    decreases |m| - a
  {
    if At(m, a) == 0 || a < 0 then [] else [At(m, a)] + StringAt(m, a + 1)
  }

  /** Thunks before the zero one. */
  function ThunkCount(m: Mem, base: int, k: nat): nat
    decreases |m| - base - 4 * k
  {
    if WordAt(m, base, k) == 0 || base + 4 * k >= |m| then 0 else 1 + ThunkCount(m, base, k + 1)
  }

  /** Descriptors before the one that ends the table. */
  function DescCount(m: Mem, base: int, k: nat): nat
    decreases |m| - base - 20 * k
  {
    var d := DescAt(m, base, k);
    if (d.oft == 0 && d.ft == 0) || base + 20 * k >= |m| then 0 else 1 + DescCount(m, base, k + 1)
  }

  /** What reading finds of an import: its name and hint, or its ordinal. */
  datatype Seen = SeenName(hint: int, name: seq<byte>) | SeenOrdinal(ordinal: int) | SeenNothing

  datatype SeenFile = SeenFile(name: seq<byte>, byway: bool, imports: seq<Seen>)

  /** One thunk; `None` when its name is too long to be duplicated. */
  function ReadThunk(sections: seq<Section>, thunk: int): Option<Seen>
  {
    if thunk >= ORDINAL_FLAG then Some(SeenOrdinal(thunk % 0x1_0000))
    else
      match RvaToVa(sections, thunk)
      case None => Some(SeenNothing)
      case Some(p) =>
        var name := StringAt(p.raw, p.off + 2);
        if |name| > MAX_NAME then None else Some(SeenName(Read16(p.raw, p.off), name))
  }

  function ReadThunks(sections: seq<Section>, m: Mem, base: int, n: nat): Option<seq<Seen>>
  {
    if n == 0 then Some([])
    else
      match ReadThunks(sections, m, base, n - 1)
      case None => None
      case Some(front) =>
        match ReadThunk(sections, WordAt(m, base, n - 1))
        case None => None
        case Some(seen) => Some(front + [seen])
  }

  function ReadImports(sections: seq<Section>, d: Desc): Option<seq<Seen>>
  {
    match RvaToVa(sections, if d.oft == 0 then d.ft else d.oft)
    case None => Some([])
    case Some(p) => ReadThunks(sections, p.raw, p.off, ThunkCount(p.raw, p.off, 0))
  }

  /** One descriptor. `beg` and `end` bound the .detour section, where only byways have their bound
      thunks. */
  function ReadFile(sections: seq<Section>, d: Desc, beg: int, end: int): Option<SeenFile>
  {
    match RvaToVa(sections, d.name)
    case None => None
    case Some(p) =>
      var name := StringAt(p.raw, p.off);
      if |name| > MAX_NAME then None
      else if beg <= d.ft < end then Some(SeenFile(name, true, []))
      else
        match ReadImports(sections, d)
        case None => None
        case Some(imports) => Some(SeenFile(name, false, imports))
  }

  function ReadFiles(sections: seq<Section>, m: Mem, base: int, n: nat, beg: int, end: int): Option<seq<SeenFile>>
  {
    if n == 0 then Some([])
    else
      match ReadFiles(sections, m, base, n - 1, beg, end)
      case None => None
      case Some(front) =>
        match ReadFile(sections, DescAt(m, base, n - 1), beg, end)
        case None => None
        case Some(f) => Some(front + [f])
  }

  /** The import list of an image whose import directory is at `rva`. */
  function ReadTable(sections: seq<Section>, rva: int, beg: int, end: int): Option<seq<SeenFile>>
  {
    match RvaToVa(sections, rva)
    case None => None
    case Some(p) => ReadFiles(sections, p.raw, p.off, DescCount(p.raw, p.off, 0), beg, end)
  }

  // ------------------------------------------------------------------- the same, step by step

  method FindVa(sections: seq<Section>, rva: int) returns (p: Option<Pointer>)
    ensures p == RvaToVa(sections, rva)
  {
    if rva == 0 {
      return None;
    }
    var n := 0;
    while n < |sections|
      invariant 0 <= n <= |sections|
      invariant RvaToVa(sections[n..], rva) == RvaToVa(sections, rva)
    {
      assert sections[n..][1..] == sections[n + 1..];
      if Covers(sections[n], rva) {
        return Some(Pointer(sections[n].raw, rva - sections[n].va));
      }
      n := n + 1;
    }
    p := None;
  }

  method CountThunks(m: Mem, base: int) returns (nNames: nat)
    ensures nNames == ThunkCount(m, base, 0)
  {
    hide WordAt;
    nNames := 0;
    while WordAt(m, base, nNames) != 0 && base + 4 * nNames < |m|
      invariant nNames + ThunkCount(m, base, nNames) == ThunkCount(m, base, 0)
      decreases |m| - base - 4 * nNames
    {
      nNames := nNames + 1;
    }
  }

  method CountDescs(m: Mem, base: int) returns (nFiles: nat)
    ensures nFiles == DescCount(m, base, 0)
  {
    hide DescAt;
    nFiles := 0;
    while (DescAt(m, base, nFiles).oft != 0 || DescAt(m, base, nFiles).ft != 0) && base + 20 * nFiles < |m|
      invariant nFiles + DescCount(m, base, nFiles) == DescCount(m, base, 0)
      decreases |m| - base - 20 * nFiles
    {
      nFiles := nFiles + 1;
    }
  }

  method ReadNames(sections: seq<Section>, d: Desc) returns (imports: Option<seq<Seen>>)
    ensures imports == ReadImports(sections, d)
  {
    hide WordAt, StringAt, ThunkCount, RvaToVa, ReadThunk;
    var p := FindVa(sections, if d.oft == 0 then d.ft else d.oft);
    if p == None {
      return Some([]);
    }
    var nNames := CountThunks(p.value.raw, p.value.off);
    var names: seq<Seen> := [];
    var f := 0;
    while f < nNames
      invariant 0 <= f <= nNames && ReadThunks(sections, p.value.raw, p.value.off, f) == Some(names)
    {
      var seen := ReadThunk(sections, WordAt(p.value.raw, p.value.off, f));
      if seen == None {
        ThunksFail(sections, p.value.raw, p.value.off, f + 1, nNames);
        return None;
      }
      names := names + [seen.value];
      f := f + 1;
    }
    imports := Some(names);
  }

  lemma {:induction false} ThunksFail(sections: seq<Section>, m: Mem, base: int, k: nat, n: nat)
    requires k <= n && ReadThunks(sections, m, base, k) == None
    ensures ReadThunks(sections, m, base, n) == None
    decreases n
  {
    hide WordAt, ReadThunk;
    if k < n { ThunksFail(sections, m, base, k, n - 1); }
  }

  lemma {:induction false} FilesFail(sections: seq<Section>, m: Mem, base: int, k: nat, n: nat, beg: int, end: int)
    requires k <= n && ReadFiles(sections, m, base, k, beg, end) == None
    ensures ReadFiles(sections, m, base, n, beg, end) == None
    decreases n
  {
    hide DescAt, ReadFile;
    if k < n { FilesFail(sections, m, base, k, n - 1, beg, end); }
  }

  /** Builds the list of import files; fails when a name cannot be found or duplicated. */
  method ReadImportTable(sections: seq<Section>, rva: int, beg: int, end: int) returns (files: Option<seq<SeenFile>>)
    ensures files == ReadTable(sections, rva, beg, end)
  {
    hide DescAt, DescCount, RvaToVa, StringAt, ReadImports;
    var p := FindVa(sections, rva);
    if p == None {
      return None;
    }
    var nFiles := CountDescs(p.value.raw, p.value.off);
    var list: seq<SeenFile> := [];
    var n := 0;
    while n < nFiles
      invariant 0 <= n <= nFiles && ReadFiles(sections, p.value.raw, p.value.off, n, beg, end) == Some(list)
    {
      var d := DescAt(p.value.raw, p.value.off, n);
      var name := FindVa(sections, d.name);
      if name == None || |StringAt(name.value.raw, name.value.off)| > MAX_NAME {
        FilesFail(sections, p.value.raw, p.value.off, n + 1, nFiles, beg, end);
        return None;
      }
      var f := SeenFile(StringAt(name.value.raw, name.value.off), beg <= d.ft < end, []);
      if !f.byway {
        var imports := ReadNames(sections, d);
        if imports == None {
          FilesFail(sections, p.value.raw, p.value.off, n + 1, nFiles, beg, end);
          return None;
        }
        f := f.(imports := imports.value);
      }
      list := list + [f];
      n := n + 1;
    }
    files := Some(list);
  }

  // ---------------------------------------------------------------------- what a section holds

  /** Offsets of the areas of the .detour section. */
  datatype Layout = Layout(pre: nat, lookup: nat, bound: nat, chars: nat, data: nat, table: nat, end: nat)

  ghost predicate Holds(m: Mem, lay: Layout, e: Emitted)
  {
    && (forall k :: 0 <= k < |e.lookup| ==> WordAt(m, lay.lookup, k) == e.lookup[k])
    && (forall k :: 0 <= k < |e.bound| ==> WordAt(m, lay.bound, k) == e.bound[k])
    && (forall k :: 0 <= k < |e.chars| ==> CharAt(m, lay.chars, k) == e.chars[k])
    && (forall k :: 0 <= k < |e.table| ==> DescAt(m, lay.table, k) == e.table[k])
  }

  /** The areas follow one another and are large enough for `thunks`, `chars` and `tables`. */
  ghost predicate LayoutOk(lay: Layout, thunks: nat, chars: nat, data: nat, tables: nat)
  {
    && lay.pre <= lay.lookup && lay.lookup + 4 * thunks <= lay.bound && lay.bound + 4 * thunks <= lay.chars
    && lay.chars + chars <= lay.data && lay.data + data <= lay.table && lay.table + 20 * tables <= lay.end
  }

  function BasesOf(lay: Layout, base: nat, thunks: nat): Bases
  {
    Bases(base + lay.lookup, base + lay.bound, base + lay.chars, thunks > 1)
  }

  // -------------------------------------------------------------------------------- round trip

  lemma {:induction false} StringWritten(m: Mem, a: int, s: seq<byte>)
    requires 0 <= a && CString(s) && (forall k :: 0 <= k < |s| ==> CharAt(m, a, k) == s[k]) && CharAt(m, a, |s|) == 0
    ensures StringAt(m, a) == s
    decreases |s|
  {
    if s != [] {
      assert CharAt(m, a, 0) == s[0];
      forall k | 0 <= k < |s[1..]| ensures CharAt(m, a + 1, k) == s[1..][k] { assert CharAt(m, a, k + 1) == s[k + 1]; }
      assert CharAt(m, a + 1, |s[1..]|) == CharAt(m, a, |s|);
      StringWritten(m, a + 1, s[1..]);
    } else {
      assert CharAt(m, a, 0) == At(m, a);
    }
  }

  /** A padded string placed among the characters is read back whole. */
  lemma PlacedString(m: Mem, lay: Layout, e: Emitted, o: nat, s: seq<byte>)
    requires Holds(m, lay, e) && CString(s) && o + |EvenString(s)| <= |e.chars|
             && e.chars[o..o + |EvenString(s)|] == EvenString(s)
    ensures StringAt(m, lay.chars + o) == s
  {
    hide WordAt, DescAt, StringAt;
    var t := EvenString(s);
    forall k | 0 <= k <= |s| ensures CharAt(m, lay.chars + o, k) == t[k] {
      assert CharAt(m, lay.chars, o + k) == e.chars[o + k] == e.chars[o..o + |t|][k];
    }
    assert t[|s|] == 0 && forall k :: 0 <= k < |s| ==> t[k] == s[k];
    StringWritten(m, lay.chars + o, s);
  }

  /** So is a hint and the name after it. */
  lemma PlacedHintName(m: Mem, lay: Layout, e: Emitted, o: nat, hint: int, s: seq<byte>)
    requires Holds(m, lay, e) && CString(s) && 0 <= hint < 0x1_0000
    requires o + |HintName(hint, s)| <= |e.chars| && e.chars[o..o + |HintName(hint, s)|] == HintName(hint, s)
    ensures StringAt(m, lay.chars + o + 2) == s && Read16(m, lay.chars + o) == hint
  {
    hide WordAt, DescAt, StringAt;
    var t := HintName(hint, s);
    assert t[..2] == Bytes16(hint) && t[2..] == EvenString(s);
    assert e.chars[o + 2..o + |t|] == e.chars[o..o + |t|][2..];
    PlacedString(m, lay, e, o + 2, s);
    assert CharAt(m, lay.chars, o) == e.chars[o] == e.chars[o..o + |t|][0];
    assert CharAt(m, lay.chars, o + 1) == e.chars[o + 1] == e.chars[o..o + |t|][1];
    Read16OfBytes(hint);
  }

  /** Addresses the sections before the last leave to it. */
  ghost predicate Clear(others: seq<Section>, s: Section)
  {
    forall rva, k :: 0 <= k < |others| && Covers(s, rva) ==> !Covers(others[k], rva)
  }

  lemma {:induction false} LastSection(others: seq<Section>, s: Section, rva: int)
    requires Clear(others, s) && Covers(s, rva) && rva != 0
    ensures RvaToVa(others + [s], rva) == Some(Pointer(s.raw, rva - s.va))
    decreases |others|
  {
    if others == [] {
      assert others + [s] == [s];
    } else {
      assert (others + [s])[1..] == others[1..] + [s];
      assert !Covers(others[0], rva);
      forall r, k | 0 <= k < |others[1..]| && Covers(s, r)
        ensures !Covers(others[1..][k], r) { assert others[1..][k] == others[k + 1]; }
      LastSection(others[1..], s, rva);
    }
  }

  // Thunks.

  /** The `j`th import of `imports` is at lookup thunk `i + j` of what was emitted. */
  ghost predicate Placed(b: Bases, e: Emitted, i: nat, imports: seq<Import>)
  {
    && i + |imports| <= |e.lookup|
    && forall j :: 0 <= j < |imports| ==> PlacedImport(b, e, e.lookup[i + j], imports[j])
  }

  ghost predicate PlacedImport(b: Bases, e: Emitted, thunk: int, imp: Import)
  {
    match imp.name
    case None => thunk == ORDINAL_FLAG + imp.ordinal
    case Some(name) =>
      && b.chars <= thunk && thunk - b.chars + |HintName(imp.hint, name)| <= |e.chars|
      && e.chars[thunk - b.chars..thunk - b.chars + |HintName(imp.hint, name)|] == HintName(imp.hint, name)
  }

  lemma PlacedExtends(b: Bases, e: Emitted, n: Emitted, thunk: int, imp: Import)
    requires PlacedImport(b, e, thunk, imp) && e.chars <= n.chars
    ensures PlacedImport(b, n, thunk, imp)
  {
    hide HintName;
    if imp.name.Some? {
      var o, k := thunk - b.chars, |HintName(imp.hint, imp.name.value)|;
      assert n.chars[o..o + k] == e.chars[o..o + k];
    }
  }

  lemma {:induction false} ImportsPlaced(b: Bases, e: Emitted, imports: seq<Import>)
    ensures Placed(b, EmitImports(b, e, imports), |e.lookup|, imports)
  {
    hide HintName, Extends;
    if imports != [] {
      var front, imp := imports[..|imports| - 1], imports[|imports| - 1];
      var was, n := EmitImports(b, e, front), EmitImports(b, e, imports);
      ImportsPlaced(b, e, front);
      ImportsSize(b, e, front);
      assert was.chars <= n.chars && was.lookup <= n.lookup;
      forall j | 0 <= j < |imports| ensures PlacedImport(b, n, n.lookup[|e.lookup| + j], imports[j]) {
        if j < |front| {
          assert imports[j] == front[j];
          assert PlacedImport(b, was, was.lookup[|e.lookup| + j], front[j]);
          PlacedExtends(b, was, n, was.lookup[|e.lookup| + j], front[j]);
        }
      }
    }
  }

  /** What reading should find of an import. */
  function Shown(i: Import): Seen
  {
    match i.name
    case None => SeenOrdinal(i.ordinal)
    case Some(name) => SeenName(i.hint, name)
  }

  function ShownAll(imports: seq<Import>): seq<Seen>
  {
    if imports == [] then [] else ShownAll(imports[..|imports| - 1]) + [Shown(imports[|imports| - 1])]
  }

  function ShownFile(f: File): SeenFile { SeenFile(f.name, f.byway, if f.byway then [] else ShownAll(f.imports)) }

  function ShownFiles(files: seq<File>): seq<SeenFile>
  {
    if files == [] then [] else ShownFiles(files[..|files| - 1]) + [ShownFile(files[|files| - 1])]
  }

  /** The written section, at its address behind the others. */
  ghost predicate Written(others: seq<Section>, s: Section, lay: Layout, e: Emitted)
  {
    && Clear(others, s) && Holds(s.raw, lay, e)
    && LayoutOk(lay, |e.lookup|, |e.chars|, 0, |e.table| + 1) && |e.bound| <= |e.lookup|
    && 0 < lay.lookup && lay.end <= |s.raw|
    && s.va + |s.raw| < ORDINAL_FLAG
  }

  lemma PointerInside(others: seq<Section>, s: Section, lay: Layout, e: Emitted, o: nat)
    requires Written(others, s, lay, e) && 0 < o < lay.end
    ensures RvaToVa(others + [s], s.va + o) == Some(Pointer(s.raw, o))
  {
    hide RvaToVa, Holds, LayoutOk, Clear;
    LastSection(others, s, s.va + o);
  }

  lemma ReadPlaced(others: seq<Section>, s: Section, lay: Layout, e: Emitted, thunk: int, imp: Import, thunks: nat)
    requires Written(others, s, lay, e) && ImportOk(imp) && PlacedImport(BasesOf(lay, s.va, thunks), e, thunk, imp)
    ensures ReadThunk(others + [s], thunk) == Some(Shown(imp)) && thunk != 0
  {
    hide RvaToVa, Holds, Clear, StringAt, Read16, EvenString;
    if imp.name.Some? {
      var o := thunk - (s.va + lay.chars);
      assert |HintName(imp.hint, imp.name.value)| >= 2;
      PointerInside(others, s, lay, e, lay.chars + o);
      PlacedHintName(s.raw, lay, e, o, imp.hint, imp.name.value);
    }
  }

  lemma {:induction false} ReadPlacedAll(others: seq<Section>, s: Section, lay: Layout, e: Emitted, i: nat,
                                         imports: seq<Import>, thunks: nat, n: nat)
    requires Written(others, s, lay, e) && Placed(BasesOf(lay, s.va, thunks), e, i, imports) && n <= |imports|
    requires forall j :: 0 <= j < |imports| ==> ImportOk(imports[j])
    ensures ReadThunks(others + [s], s.raw, lay.lookup + 4 * i, n) == Some(ShownAll(imports[..n]))
  {
    hide Written, PlacedImport, ReadThunk, Shown, BasesOf;
    if n > 0 {
      ReadPlacedAll(others, s, lay, e, i, imports, thunks, n - 1);
      LookupWord(others, s, lay, e, i, n - 1);
      assert PlacedImport(BasesOf(lay, s.va, thunks), e, e.lookup[i + (n - 1)], imports[n - 1]);
      ReadPlaced(others, s, lay, e, e.lookup[i + (n - 1)], imports[n - 1], thunks);
      assert imports[..n][..n - 1] == imports[..n - 1];
    }
  }

  lemma LookupWord(others: seq<Section>, s: Section, lay: Layout, e: Emitted, i: nat, j: nat)
    requires Written(others, s, lay, e) && i + j < |e.lookup|
    ensures WordAt(s.raw, lay.lookup + 4 * i, j) == e.lookup[i + j] && lay.lookup + 4 * (i + j) + 4 <= |s.raw|
  {
    hide DescAt, Read32;
    assert WordAt(s.raw, lay.lookup, i + j) == e.lookup[i + j];
  }

  lemma {:induction false} CountPlaced(others: seq<Section>, s: Section, lay: Layout, e: Emitted, i: nat,
                                       imports: seq<Import>, thunks: nat, k: nat)
    requires Written(others, s, lay, e) && Placed(BasesOf(lay, s.va, thunks), e, i, imports) && k <= |imports|
    requires forall j :: 0 <= j < |imports| ==> ImportOk(imports[j])
    requires i + |imports| < |e.lookup| && e.lookup[i + |imports|] == 0
    ensures ThunkCount(s.raw, lay.lookup + 4 * i, k) == |imports| - k
    decreases |imports| - k
  {
    hide Written, PlacedImport, ReadThunk, BasesOf, WordAt;
    LookupWord(others, s, lay, e, i, k);
    if k < |imports| {
      assert PlacedImport(BasesOf(lay, s.va, thunks), e, e.lookup[i + k], imports[k]);
      ReadPlaced(others, s, lay, e, e.lookup[i + k], imports[k], thunks);
      CountPlaced(others, s, lay, e, i, imports, thunks, k + 1);
    }
  }

  // Files.

  /** What a file's descriptor and areas hold once it was emitted. */
  ghost predicate PlacedFile(b: Bases, e: Emitted, d: Desc, f: File)
  {
    && b.chars <= d.name && d.name - b.chars + |EvenString(f.name)| <= |e.chars|
    && e.chars[d.name - b.chars..d.name - b.chars + |EvenString(f.name)|] == EvenString(f.name)
    && if f.byway then b.bound <= d.ft && d.ft - b.bound + 8 <= 4 * |e.bound|
       else
         && d.ft == f.firstThunk && b.lookup <= d.oft && (d.oft - b.lookup) % 4 == 0
         && var i := (d.oft - b.lookup) / 4;
         Placed(b, e, i, f.imports) && i + |f.imports| < |e.lookup| && e.lookup[i + |f.imports|] == 0
  }

  lemma FileExtends(b: Bases, e: Emitted, n: Emitted, d: Desc, f: File)
    requires PlacedFile(b, e, d, f) && Extends(e, n)
    ensures PlacedFile(b, n, d, f)
  {
    hide EvenString, PlacedImport;
    var o, k := d.name - b.chars, |EvenString(f.name)|;
    assert n.chars[o..o + k] == e.chars[o..o + k];
    if !f.byway {
      var i := (d.oft - b.lookup) / 4;
      forall j | 0 <= j < |f.imports| ensures PlacedImport(b, n, n.lookup[i + j], f.imports[j]) {
        PlacedExtends(b, e, n, e.lookup[i + j], f.imports[j]);
      }
    }
  }

  lemma FilePlaced(b: Bases, e: Emitted, f: File)
    requires b.many
    ensures var n := EmitFile(b, e, f); |n.table| == |e.table| + 1 && PlacedFile(b, n, n.table[|e.table|], f)
  {
    hide EvenString, EmitImports, PlacedImport;
    var n := EmitFile(b, e, f);
    var name := EvenString(f.name);
    var named := e.(chars := e.chars + name);
    FileSize(b, e, f);
    assert named.chars[|e.chars|..|e.chars| + |name|] == name;
    if !f.byway {
      var done := EmitImports(b, named, f.imports);
      ImportsSize(b, named, f.imports);
      ImportsPlaced(b, named, f.imports);
      assert n.chars[|e.chars|..|e.chars| + |name|] == named.chars[|e.chars|..|e.chars| + |name|];
      forall j | 0 <= j < |f.imports| ensures PlacedImport(b, n, n.lookup[|e.lookup| + j], f.imports[j]) {
        PlacedExtends(b, done, n, done.lookup[|e.lookup| + j], f.imports[j]);
      }
    }
  }

  lemma {:induction false} FilesPlaced(b: Bases, files: seq<File>, k: nat)
    requires k < |files| && b.many
    ensures var e := EmitFiles(b, files); |e.table| == |files| && PlacedFile(b, e, e.table[k], files[k])
  {
    hide EmitFile, PlacedFile, Extends;
    FilesSize(b, files);
    FilesSize(b, files[..k]);
    FilePlaced(b, EmitFiles(b, files[..k]), files[k]);
    assert files[..k + 1][..k] == files[..k];
    var was, e := EmitFiles(b, files[..k + 1]), EmitFiles(b, files);
    FilesExtend(b, files, k + 1);
    TablePrefix(was, e, k);
    FileExtends(b, was, e, was.table[k], files[k]);
  }

  lemma TablePrefix(e: Emitted, n: Emitted, k: nat)
    requires Extends(e, n) && k < |e.table|
    ensures k < |n.table| && n.table[k] == e.table[k]
  {
  }

  lemma ReadPlacedFile(others: seq<Section>, s: Section, lay: Layout, e: Emitted, d: Desc, f: File, thunks: nat)
    requires Written(others, s, lay, e) && FileOk(f) && PlacedFile(BasesOf(lay, s.va, thunks), e, d, f)
    requires !f.byway ==> !(s.va <= f.firstThunk < s.va + |s.raw|)
    ensures ReadFile(others + [s], d, s.va, s.va + |s.raw|) == Some(ShownFile(f)) && (d.oft != 0 || d.ft != 0)
  {
    hide RvaToVa, Holds, Clear, StringAt, Placed, EvenString, ReadThunks, ThunkCount, ShownAll;
    var o := d.name - (s.va + lay.chars);
    NameInside(others, s, lay, e, d.name, f.name, thunks);
    PlacedString(s.raw, lay, e, o, f.name);
    if !f.byway {
      var i := (d.oft - (s.va + lay.lookup)) / 4;
      PointerInside(others, s, lay, e, lay.lookup + 4 * i);
      CountPlaced(others, s, lay, e, i, f.imports, thunks, 0);
      ReadPlacedAll(others, s, lay, e, i, f.imports, thunks, |f.imports|);
      assert f.imports[..|f.imports|] == f.imports;
    }
  }

  lemma NameInside(others: seq<Section>, s: Section, lay: Layout, e: Emitted, rva: int, name: seq<byte>, thunks: nat)
    requires Written(others, s, lay, e) && s.va + lay.chars <= rva
             && rva - (s.va + lay.chars) + |EvenString(name)| <= |e.chars|
    ensures RvaToVa(others + [s], rva) == Some(Pointer(s.raw, rva - s.va))
  {
    hide RvaToVa, Holds, Clear;
    PointerInside(others, s, lay, e, rva - s.va);
  }

  /** No original first thunk lies in the new section. */
  ghost predicate BoundElsewhere(files: seq<File>, s: Section)
  {
    forall k :: 0 <= k < |files| && !files[k].byway ==> !(s.va <= files[k].firstThunk < s.va + |s.raw|)
  }

  lemma ReadDesc(others: seq<Section>, s: Section, lay: Layout, files: seq<File>, thunks: nat, k: nat)
    requires thunks > 1 && Written(others, s, lay, EmitFiles(BasesOf(lay, s.va, thunks), files))
    requires k < |files| && FileOk(files[k]) && BoundElsewhere(files, s)
    ensures var d := DescAt(s.raw, lay.table, k);
            ReadFile(others + [s], d, s.va, s.va + |s.raw|) == Some(ShownFile(files[k])) && (d.oft != 0 || d.ft != 0)
  {
    hide RvaToVa, Clear, DescAt, WordAt, CharAt, PlacedFile, ReadFile, EmitFiles, FileOk;
    var b := BasesOf(lay, s.va, thunks);
    var e := EmitFiles(b, files);
    FilesPlaced(b, files, k);
    ReadPlacedFile(others, s, lay, e, e.table[k], files[k], thunks);
  }

  lemma {:induction false} ReadDescs(others: seq<Section>, s: Section, lay: Layout, files: seq<File>, thunks: nat,
                                     n: nat)
    requires thunks > 1 && Written(others, s, lay, EmitFiles(BasesOf(lay, s.va, thunks), files))
    requires n <= |files| && (forall k :: 0 <= k < |files| ==> FileOk(files[k])) && BoundElsewhere(files, s)
    ensures var r := ReadFiles(others + [s], s.raw, lay.table, n, s.va, s.va + |s.raw|);
            r.Some? && r.value == ShownFiles(files[..n])
  {
    hide Written, DescAt, ReadFile, EmitFiles, FileOk, ShownFile, BoundElsewhere, ReadFiles, ShownFiles;
    if n > 0 {
      ReadDescs(others, s, lay, files, thunks, n - 1);
      ReadDesc(others, s, lay, files, thunks, n - 1);
      ReadFilesStep(others + [s], s.raw, lay.table, n, s.va, s.va + |s.raw|);
    }
    ReadNoFiles(others + [s], s.raw, lay.table, s.va, s.va + |s.raw|);
    ShownStep(files, n);
  }

  lemma ReadFilesStep(sections: seq<Section>, m: Mem, base: int, n: nat, beg: int, end: int)
    requires n > 0 && ReadFiles(sections, m, base, n - 1, beg, end).Some?
             && ReadFile(sections, DescAt(m, base, n - 1), beg, end).Some?
    ensures ReadFiles(sections, m, base, n, beg, end)
         == Some(ReadFiles(sections, m, base, n - 1, beg, end).value
                 + [ReadFile(sections, DescAt(m, base, n - 1), beg, end).value])
  {
    hide ReadFile, DescAt;
  }

  lemma ReadNoFiles(sections: seq<Section>, m: Mem, base: int, beg: int, end: int)
    ensures ReadFiles(sections, m, base, 0, beg, end) == Some([])
  {
  }

  lemma ShownStep(files: seq<File>, n: nat)
    requires n <= |files|
    ensures n == 0 ==> ShownFiles(files[..n]) == []
    ensures n > 0 ==> ShownFiles(files[..n]) == ShownFiles(files[..n - 1]) + [ShownFile(files[n - 1])]
  {
    hide ShownFile;
    if n > 0 { assert files[..n][..n - 1] == files[..n - 1]; }
  }

  lemma {:induction false} CountDescsPlaced(others: seq<Section>, s: Section, lay: Layout, files: seq<File>,
                                            thunks: nat, k: nat)
    requires thunks > 1 && Written(others, s, lay, EmitFiles(BasesOf(lay, s.va, thunks), files))
    requires k <= |files| && (forall j :: 0 <= j < |files| ==> FileOk(files[j])) && BoundElsewhere(files, s)
    requires DescAt(s.raw, lay.table, |files|) == Desc(0, 0, 0, 0)
    ensures DescCount(s.raw, lay.table, k) == |files| - k
    decreases |files| - k
  {
    hide Written, DescAt, ReadFile, EmitFiles, FileOk, ShownFile, BoundElsewhere;
    if k < |files| {
      TableRoom(others, s, lay, files, thunks, k);
      ReadDesc(others, s, lay, files, thunks, k);
      CountDescsPlaced(others, s, lay, files, thunks, k + 1);
    }
  }

  lemma TableRoom(others: seq<Section>, s: Section, lay: Layout, files: seq<File>, thunks: nat, k: nat)
    requires Written(others, s, lay, EmitFiles(BasesOf(lay, s.va, thunks), files)) && k < |files|
    ensures lay.table + 20 * k < |s.raw|
  {
    hide Holds, Clear, EmitFiles;
    FilesSize(BasesOf(lay, s.va, thunks), files);
  }

  /** The thunk table at `rva` is empty, or no section holds it. */
  predicate LeadsNowhere(sections: seq<Section>, rva: int)
  {
    match RvaToVa(sections, rva)
    case None => true
    case Some(p) => WordAt(p.raw, p.off, 0) == 0
  }

  /** A list the reader can tell from what it is written as: with one thunk in all, a lone file without
      imports, no lookup table is written, and the file's own first thunk is read in its place. */
  predicate Readable(sections: seq<Section>, files: seq<File>)
  {
    |files| == 1 && !files[0].byway && files[0].imports == [] ==>
      files[0].firstThunk != 0 && LeadsNowhere(sections, files[0].firstThunk)
  }

  /** Round trip: reading the written table recovers, in order, every file's name and byway flag and
      every import's current name with its hint, or its ordinal, exactly if the list is readable. */
  lemma TableRoundTrip(others: seq<Section>, s: Section, lay: Layout, files: seq<File>)
    requires Written(others, s, lay, EmitFiles(BasesOf(lay, s.va, Thunks(files)), files))
    requires (forall j :: 0 <= j < |files| ==> FileOk(files[j])) && BoundElsewhere(files, s)
    requires DescAt(s.raw, lay.table, |files|) == Desc(0, 0, 0, 0)
    ensures ReadTable(others + [s], s.va + lay.table, s.va, s.va + |s.raw|) == Some(ShownFiles(files)) <==>
            Readable(others + [s], files)
  {
    hide Holds, Clear, DescAt, ReadFiles, EmitFiles, FileOk, ShownFiles, BoundElsewhere, RvaToVa, Thunks,
      LeadsNowhere, Written;
    SomeThunks(files);
    if Thunks(files) != 1 {
      ManyRoundTrip(others, s, lay, files);
    } else {
      assert files == [files[0]];
      LoneFile(others, s, lay, files[0]);
    }
  }

  lemma ManyRoundTrip(others: seq<Section>, s: Section, lay: Layout, files: seq<File>)
    requires Thunks(files) != 1 && Written(others, s, lay, EmitFiles(BasesOf(lay, s.va, Thunks(files)), files))
    requires (forall j :: 0 <= j < |files| ==> FileOk(files[j])) && BoundElsewhere(files, s)
    requires DescAt(s.raw, lay.table, |files|) == Desc(0, 0, 0, 0)
    ensures ReadTable(others + [s], s.va + lay.table, s.va, s.va + |s.raw|) == Some(ShownFiles(files))
  {
    hide Holds, Clear, DescAt, ReadFiles, EmitFiles, FileOk, ShownFiles, BoundElsewhere, RvaToVa, Thunks;
    var b := BasesOf(lay, s.va, Thunks(files));
    FilesSize(b, files);
    PointerInside(others, s, lay, EmitFiles(b, files), lay.table);
    SomeThunks(files);
    if files == [] {
      NoFiles(others + [s], s.raw, lay.table, s.va, s.va + |s.raw|);
    } else {
      CountDescsPlaced(others, s, lay, files, Thunks(files), 0);
      ReadDescs(others, s, lay, files, Thunks(files), |files|);
      assert files[..|files|] == files;
    }
  }

  lemma NoFiles(sections: seq<Section>, m: Mem, base: int, beg: int, end: int)
    requires DescAt(m, base, 0) == Desc(0, 0, 0, 0)
    ensures DescCount(m, base, 0) == 0 && ReadFiles(sections, m, base, 0, beg, end) == Some([]) && ShownFiles([]) == []
  {
    hide DescAt;
  }

  lemma {:induction false} SomeThunks(files: seq<File>)
    ensures files != [] ==> Thunks(files) >= |files|
    ensures Thunks(files) == 1 <==> |files| == 1 && !files[0].byway && files[0].imports == []
  {
    if files != [] {
      SomeThunks(files[..|files| - 1]);
    }
  }

  /** A lone file without imports is read back exactly if its own first thunk is not zero, which would
      end the table, and leads to no thunk that would be taken for its imports. */
  lemma LoneFile(others: seq<Section>, s: Section, lay: Layout, f: File)
    requires !f.byway && f.imports == [] && FileOk(f) && BoundElsewhere([f], s)
    requires Written(others, s, lay, EmitFiles(BasesOf(lay, s.va, Thunks([f])), [f]))
    requires DescAt(s.raw, lay.table, 1) == Desc(0, 0, 0, 0)
    ensures ReadTable(others + [s], s.va + lay.table, s.va, s.va + |s.raw|) == Some(ShownFiles([f])) <==>
            f.firstThunk != 0 && LeadsNowhere(others + [s], f.firstThunk)
    ensures f.firstThunk == 0 ==> ReadTable(others + [s], s.va + lay.table, s.va, s.va + |s.raw|) == Some([])
  {
    hide Clear, RvaToVa, WordAt, CharAt, DescAt, EvenString, ReadFiles, ReadFile, LeadsNowhere, Holds, StringAt;
    var d := LoneDesc(others, s, lay, f);
    assert ShownFiles([f]) == [SeenFile(f.name, false, [])] by { assert [f][..0] == []; }
    PointerInside(others, s, lay, EmitFiles(BasesOf(lay, s.va, Thunks([f])), [f]), lay.table);
    if f.firstThunk != 0 {
      assert DescCount(s.raw, lay.table, 1) == 0;
      assert DescCount(s.raw, lay.table, 0) == 1;
      ReadOne(others + [s], s.raw, lay.table, s.va, s.va + |s.raw|);
      LoneImports(others, s, lay, f, d);
    } else {
      ReadNoFiles(others + [s], s.raw, lay.table, s.va, s.va + |s.raw|);
    }
  }

  lemma LoneDesc(others: seq<Section>, s: Section, lay: Layout, f: File) returns (d: Desc)
    requires !f.byway && f.imports == [] && FileOk(f)
    requires Written(others, s, lay, EmitFiles(BasesOf(lay, s.va, Thunks([f])), [f]))
    ensures d == DescAt(s.raw, lay.table, 0) && d.oft == 0 && d.ft == f.firstThunk && lay.table + 20 < |s.raw|
            && lay.table < lay.end
    ensures RvaToVa(others + [s], d.name) == Some(Pointer(s.raw, d.name - s.va))
            && StringAt(s.raw, d.name - s.va) == f.name
  {
    hide Clear, RvaToVa, WordAt, CharAt, DescAt, StringAt;
    assert [f][..0] == [];
    var b := BasesOf(lay, s.va, Thunks([f]));
    assert Thunks([f]) == 1;
    var e := EmitFiles(b, [f]);
    assert e.table == [Desc(0, f.chain, b.chars, f.firstThunk)];
    assert e.chars[0..0 + |EvenString(f.name)|] == EvenString(f.name);
    d := e.table[0];
    assert DescAt(s.raw, lay.table, 0) == e.table[0];
    LoneName(others, s, lay, e, d.name, f.name);
  }

  lemma LoneName(others: seq<Section>, s: Section, lay: Layout, e: Emitted, rva: int, name: seq<byte>)
    requires Written(others, s, lay, e) && rva == s.va + lay.chars && CString(name)
    requires |EvenString(name)| <= |e.chars| && e.chars[0..0 + |EvenString(name)|] == EvenString(name)
    ensures RvaToVa(others + [s], rva) == Some(Pointer(s.raw, rva - s.va)) && StringAt(s.raw, rva - s.va) == name
  {
    hide RvaToVa, Holds, Clear, StringAt;
    PointerInside(others, s, lay, e, lay.chars);
    PlacedString(s.raw, lay, e, 0, name);
  }

  lemma ReadOne(sections: seq<Section>, m: Mem, base: int, beg: int, end: int)
    ensures ReadFiles(sections, m, base, 1, beg, end) ==
            match ReadFile(sections, DescAt(m, base, 0), beg, end) case None => None case Some(f) => Some([f])
  {
    hide ReadFile, DescAt;
    ReadNoFiles(sections, m, base, beg, end);
    var r := ReadFile(sections, DescAt(m, base, 0), beg, end);
    if r.Some? { assert [] + [r.value] == [r.value]; }
  }

  lemma LoneImports(others: seq<Section>, s: Section, lay: Layout, f: File, d: Desc)
    requires d.oft == 0 && d.ft == f.firstThunk && FileOk(f) && BoundElsewhere([f], s) && !f.byway
    requires RvaToVa(others + [s], d.name) == Some(Pointer(s.raw, d.name - s.va))
             && StringAt(s.raw, d.name - s.va) == f.name
    ensures ReadFile(others + [s], d, s.va, s.va + |s.raw|) == Some(SeenFile(f.name, false, [])) <==>
            LeadsNowhere(others + [s], f.firstThunk)
  {
    hide RvaToVa, WordAt, StringAt, ReadThunk;
    assert [f][0] == f;
    var sections := others + [s];
    assert !(s.va <= d.ft < s.va + |s.raw|) && |f.name| <= MAX_NAME;
    var imports := ReadImports(sections, d);
    assert ReadFile(sections, d, s.va, s.va + |s.raw|) == if imports == None then None
                                                          else Some(SeenFile(f.name, false, imports.value));
    match RvaToVa(sections, f.firstThunk) {
      case None =>
        assert imports == Some([]);
      case Some(p) =>
        PointerCovered(sections, f.firstThunk);
        var n := ThunkCount(p.raw, p.off, 0);
        assert n == 0 <==> WordAt(p.raw, p.off, 0) == 0;
        assert imports == ReadThunks(sections, p.raw, p.off, n);
        ThunksSize(sections, p.raw, p.off, n);
    }
  }

  lemma {:induction false} PointerCovered(sections: seq<Section>, rva: int)
    ensures RvaToVa(sections, rva).Some? ==> 0 <= RvaToVa(sections, rva).value.off < |RvaToVa(sections, rva).value.raw|
  {
    if rva != 0 && sections != [] && !Covers(sections[0], rva) { PointerCovered(sections[1..], rva); }
  }

  lemma {:induction false} ThunksSize(sections: seq<Section>, m: Mem, base: int, n: nat)
    ensures ReadThunks(sections, m, base, n).Some? ==> |ReadThunks(sections, m, base, n).value| == n
  {
    hide WordAt, ReadThunk;
    if n > 0 { ThunksSize(sections, m, base, n - 1); }
  }

  // ------------------------------------------------------------------------------ inserted files

  /** A descriptor whose two tables hold ordinal 1 and their end. */
  ghost predicate BywayPlaced(b: Bases, e: Emitted, d: Desc)
  {
    && b.lookup <= d.oft && (d.oft - b.lookup) % 4 == 0 && b.bound <= d.ft && (d.ft - b.bound) % 4 == 0
    && var i, j := (d.oft - b.lookup) / 4, (d.ft - b.bound) / 4;
    && i + 2 <= |e.lookup| && e.lookup[i] == ORDINAL_FLAG + 1 && e.lookup[i + 1] == 0
    && j + 2 <= |e.bound| && e.bound[j] == ORDINAL_FLAG + 1 && e.bound[j + 1] == 0
  }

  lemma BywayEmitted(b: Bases, e: Emitted, f: File)
    requires f.byway
    ensures var n := EmitFile(b, e, f); |n.table| == |e.table| + 1 && BywayPlaced(b, n, n.table[|e.table|])
  {
    hide EvenString;
  }

  lemma BywaysPlaced(b: Bases, files: seq<File>, k: nat)
    requires k < |files| && files[k].byway
    ensures var e := EmitFiles(b, files); |e.table| == |files| && BywayPlaced(b, e, e.table[k])
  {
    hide EmitFile;
    FilesSize(b, files);
    FilesSize(b, files[..k]);
    BywayEmitted(b, EmitFiles(b, files[..k]), files[k]);
    assert files[..k + 1][..k] == files[..k];
    FilesExtend(b, files, k + 1);
    TablePrefix(EmitFiles(b, files[..k + 1]), EmitFiles(b, files), k);
  }

  lemma OrdinalTable(sections: seq<Section>, m: Mem, base: int)
    requires WordAt(m, base, 0) == ORDINAL_FLAG + 1 && WordAt(m, base, 1) == 0 && base < |m|
    ensures ReadThunks(sections, m, base, ThunkCount(m, base, 0)) == Some([SeenOrdinal(1)])
  {
    hide WordAt;
    assert ThunkCount(m, base, 1) == 0;
    assert ReadThunks(sections, m, base, 0) == Some([]);
    assert [] + [SeenOrdinal(1)] == [SeenOrdinal(1)];
  }

  /** An inserted file imports its DLL's ordinal 1 and nothing else, by its lookup table as by its address
      table. */
  lemma BywayImports(others: seq<Section>, s: Section, lay: Layout, files: seq<File>, k: nat)
    requires Written(others, s, lay, EmitFiles(BasesOf(lay, s.va, Thunks(files)), files))
    requires k < |files| && files[k].byway
    ensures var d := DescAt(s.raw, lay.table, k);
            && ReadImports(others + [s], d) == Some([SeenOrdinal(1)])
            && ReadImports(others + [s], d.(oft := 0)) == Some([SeenOrdinal(1)])
  {
    hide RvaToVa, DescAt, WordAt, EmitFiles, ReadThunks, ThunkCount, Thunks, Written, BywayPlaced;
    var b := BasesOf(lay, s.va, Thunks(files));
    var e := EmitFiles(b, files);
    BywaysPlaced(b, files, k);
    DescWritten(others, s, lay, e, k);
    BywayRead(others, s, lay, e, e.table[k], Thunks(files));
  }

  lemma DescWritten(others: seq<Section>, s: Section, lay: Layout, e: Emitted, k: nat)
    requires Written(others, s, lay, e) && k < |e.table|
    ensures DescAt(s.raw, lay.table, k) == e.table[k]
  {
    hide DescAt, WordAt, CharAt;
  }

  lemma BywayRead(others: seq<Section>, s: Section, lay: Layout, e: Emitted, d: Desc, thunks: nat)
    requires Written(others, s, lay, e) && BywayPlaced(BasesOf(lay, s.va, thunks), e, d)
    ensures ReadImports(others + [s], d) == Some([SeenOrdinal(1)])
    ensures ReadImports(others + [s], d.(oft := 0)) == Some([SeenOrdinal(1)])
  {
    hide RvaToVa, Clear, Holds, WordAt, ReadThunks, ThunkCount;
    var i, j := (d.oft - (s.va + lay.lookup)) / 4, (d.ft - (s.va + lay.bound)) / 4;
    TableReads(others, s, lay, e, lay.lookup + 4 * i);
    TableReads(others, s, lay, e, lay.bound + 4 * j);
    WordsPlaced(s.raw, lay, e, i, j);
    OrdinalTable(others + [s], s.raw, lay.lookup + 4 * i);
    OrdinalTable(others + [s], s.raw, lay.bound + 4 * j);
  }

  lemma TableReads(others: seq<Section>, s: Section, lay: Layout, e: Emitted, o: nat)
    requires Written(others, s, lay, e) && 0 < o && o + 8 <= lay.chars
    ensures RvaToVa(others + [s], s.va + o) == Some(Pointer(s.raw, o)) && o < |s.raw|
  {
    hide RvaToVa, Holds, Clear;
    PointerInside(others, s, lay, e, o);
  }

  lemma WordsPlaced(m: Mem, lay: Layout, e: Emitted, i: nat, j: nat)
    requires Holds(m, lay, e) && i + 2 <= |e.lookup| && j + 2 <= |e.bound|
    ensures WordAt(m, lay.lookup + 4 * i, 0) == e.lookup[i] && WordAt(m, lay.lookup + 4 * i, 1) == e.lookup[i + 1]
    ensures WordAt(m, lay.bound + 4 * j, 0) == e.bound[j] && WordAt(m, lay.bound + 4 * j, 1) == e.bound[j + 1]
  {
    hide Read32, CharAt, DescAt;
    assert WordAt(m, lay.lookup, i) == e.lookup[i] && WordAt(m, lay.lookup, i + 1) == e.lookup[i + 1];
    assert WordAt(m, lay.bound, j) == e.bound[j] && WordAt(m, lay.bound, j + 1) == e.bound[j + 1];
  }

  // ------------------------------------------------------------------------------ the other fields

  /** A file's descriptor keeps its forwarder chain, and an image file's the address of its bound thunks. */
  lemma DescKept(others: seq<Section>, s: Section, lay: Layout, files: seq<File>, k: nat)
    requires Written(others, s, lay, EmitFiles(BasesOf(lay, s.va, Thunks(files)), files)) && k < |files|
    ensures var d := DescAt(s.raw, lay.table, k);
            d.chain == files[k].chain && (!files[k].byway ==> d.ft == files[k].firstThunk)
  {
    hide DescAt, EmitFiles, Thunks, Written, EmitFile;
    var b := BasesOf(lay, s.va, Thunks(files));
    var e := EmitFiles(b, files);
    FilesSize(b, files);
    FilesSize(b, files[..k]);
    DescEmitted(b, EmitFiles(b, files[..k]), files[k]);
    EmitLast(b, files, k);
    FilesExtend(b, files, k + 1);
    TablePrefix(EmitFiles(b, files[..k + 1]), e, k);
    DescWritten(others, s, lay, e, k);
  }

  lemma EmitLast(b: Bases, files: seq<File>, k: nat)
    requires k < |files|
    ensures EmitFiles(b, files[..k + 1]) == EmitFile(b, EmitFiles(b, files[..k]), files[k])
  {
    hide EmitFile;
    assert files[..k + 1][..k] == files[..k];
  }

  lemma DescEmitted(b: Bases, e: Emitted, f: File)
    ensures var n := EmitFile(b, e, f);
            |n.table| == |e.table| + 1
            && n.table[|e.table|].chain == f.chain && (!f.byway ==> n.table[|e.table|].ft == f.firstThunk)
  {
    hide EvenString, EmitImports;
  }
}

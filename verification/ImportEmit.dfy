/** What the import writer puts into the .detour section: counting first (CheckImportsNeeded), then the
    thunks, names and descriptors emitted for each file. */
module ImportEmit {
  import opened Options
  import opened Memory

  const ORDINAL_FLAG := 0x8000_0000

  predicate CString(s: seq<byte>) { forall i :: 0 <= i < |s| ==> s[i] != 0 }

  /** CImageImportName; `orig` and `origOrdinal` are what it was in the original image. */
  datatype Import = Import(hint: int, name: Option<seq<byte>>, ordinal: int, orig: Option<seq<byte>>, origOrdinal: int)

  /** CImageImportFile; a byway is a file inserted into the import list. */
  datatype File = File(name: seq<byte>, orig: Option<seq<byte>>, byway: bool, firstThunk: u32, chain: u32,
                       imports: seq<Import>)

  const MAX_NAME := 8191

  predicate NameOk(s: seq<byte>) { CString(s) && |s| <= MAX_NAME }

  predicate ImportOk(i: Import)
  {
    0 <= i.hint < 0x1_0000 && 0 <= i.ordinal < 0x1_0000 && (i.name.Some? ==> NameOk(i.name.value))
  }

  ghost predicate FileOk(f: File)
  {
    NameOk(f.name) && (forall k :: 0 <= k < |f.imports| ==> ImportOk(f.imports[k]))
  }

  // -------------------------------------------------------------------------------- counting

  function Even(n: int): int { n + n % 2 }

  function ImportChars(i: Import): nat { if i.name.Some? then Even(2 + |i.name.value| + 1) else 0 }

  function ImportsChars(imports: seq<Import>): nat
  {
    if imports == [] then 0 else ImportsChars(imports[..|imports| - 1]) + ImportChars(imports[|imports| - 1])
  }

  function FileChars(f: File): nat { Even(|f.name| + 1) + if f.byway then 0 else ImportsChars(f.imports) }

  function FileThunks(f: File): nat { if f.byway then 2 else |f.imports| + 1 }

  function Chars(files: seq<File>): nat
  {
    if files == [] then 0 else Chars(files[..|files| - 1]) + FileChars(files[|files| - 1])
  }

  function Thunks(files: seq<File>): nat
  {
    if files == [] then 0 else Thunks(files[..|files| - 1]) + FileThunks(files[|files| - 1])
  }

  function Byways(files: seq<File>): nat
  {
    if files == [] then 0 else Byways(files[..|files| - 1]) + if files[|files| - 1].byway then 1 else 0
  }

  /** strneq: names differ; an absent name equals only an absent one. */
  predicate Differ(a: Option<seq<byte>>, b: Option<seq<byte>>) { a != b }

  ghost predicate Renamed(f: File)
  {
    Differ(Some(f.name), f.orig) || exists k :: 0 <= k < |f.imports| && Differ(f.imports[k].name, f.imports[k].orig)
  }

  /** The section is needed exactly if a file was inserted or something was renamed. */
  ghost predicate Needed(files: seq<File>)
  {
    exists k :: 0 <= k < |files| && (files[k].byway || Renamed(files[k]))
  }

  method CheckNames(imports: seq<Import>, chars: nat, thunks: nat, needed: bool)
    returns (nChars: nat, nThunks: nat, fNeed: bool)
    requires chars % 2 == 0
    ensures nChars == chars + ImportsChars(imports) && nChars % 2 == 0 && nThunks == thunks + |imports|
    ensures fNeed <==> needed || exists k :: 0 <= k < |imports| && Differ(imports[k].name, imports[k].orig)
  {
    hide Differ;
    nChars, nThunks, fNeed := chars, thunks, needed;
    var n := 0;
    while n < |imports|
      invariant 0 <= n <= |imports| && nThunks == thunks + n
      invariant nChars == chars + ImportsChars(imports[..n]) && nChars % 2 == 0
      invariant fNeed <==> needed || exists k :: 0 <= k < n && Differ(imports[k].name, imports[k].orig)
    {
      var i := imports[n];
      assert imports[..n + 1][..n] == imports[..n];
      if !fNeed && Differ(i.name, i.orig) {
        fNeed := true;
      }
      if i.name.Some? {
        nChars := nChars + 2;
        nChars := nChars + |i.name.value| + 1;
        nChars := nChars + nChars % 2;
      }
      nThunks := nThunks + 1;
      n := n + 1;
    }
    assert imports[..n] == imports;
  }

  method CheckFile(f: File, chars: nat, thunks: nat, needed: bool) returns (nChars: nat, nThunks: nat, fNeed: bool)
    requires chars % 2 == 0
    ensures nChars == chars + FileChars(f) && nChars % 2 == 0 && nThunks == thunks + FileThunks(f)
    ensures fNeed <==> needed || f.byway || Renamed(f)
  {
    hide ImportsChars, Differ;
    nChars, nThunks, fNeed := chars + |f.name| + 1, thunks, needed;
    nChars := nChars + nChars % 2;
    if f.byway {
      fNeed := true;
      nThunks := nThunks + 1;
    } else {
      if !fNeed && Differ(Some(f.name), f.orig) {
        fNeed := true;
      }
      nChars, nThunks, fNeed := CheckNames(f.imports, nChars, nThunks, fNeed);
    }
    nThunks := nThunks + 1;
  }

  /** CheckImportsNeeded: tables, thunks and characters the section will take, and whether it is needed. */
  method CheckImportsNeeded(files: seq<File>) returns (nTables: nat, nThunks: nat, nChars: nat, fNeed: bool)
    ensures nTables == |files| + 1 && nThunks == Thunks(files) && nChars == Chars(files)
    ensures fNeed <==> Needed(files)
  {
    hide Renamed, FileChars, FileThunks;
    nTables, nThunks, nChars, fNeed := 0, 0, 0, false;
    while nTables < |files|
      invariant 0 <= nTables <= |files| && nThunks == Thunks(files[..nTables])
      invariant nChars == Chars(files[..nTables]) && nChars % 2 == 0
      invariant fNeed <==> exists k :: 0 <= k < nTables && (files[k].byway || Renamed(files[k]))
    {
      assert files[..nTables + 1][..nTables] == files[..nTables];
      nChars, nThunks, fNeed := CheckFile(files[nTables], nChars, nThunks, fNeed);
      nTables := nTables + 1;
    }
    assert files[..nTables] == files;
    nTables := nTables + 1;
  }

  // -------------------------------------------------------------------------------- emitting

  /** IMAGE_IMPORT_DESCRIPTOR; the time stamp is always 0. */
  datatype Desc = Desc(oft: int, chain: int, name: int, ft: int)

  /** What has been written so far. */
  datatype Emitted = Emitted(lookup: seq<int>, bound: seq<int>, chars: seq<byte>, table: seq<Desc>)

  const NOTHING := Emitted([], [], [], [])

  /** Virtual addresses of the three areas, and whether there is more than one thunk. */
  datatype Bases = Bases(lookup: int, bound: int, chars: int, many: bool)

  function EvenString(s: seq<byte>): seq<byte> { s + [0] + if |s| % 2 == 0 then [0] else [] }

  function HintName(hint: int, s: seq<byte>): seq<byte> { Bytes16(hint) + EvenString(s) }

  function EmitImport(b: Bases, e: Emitted, i: Import): Emitted
  {
    if i.name.Some? then
      e.(chars := e.chars + HintName(i.hint, i.name.value), lookup := e.lookup + [b.chars + |e.chars|])
    else e.(lookup := e.lookup + [ORDINAL_FLAG + i.ordinal])
  }

  function EmitImports(b: Bases, e: Emitted, imports: seq<Import>): Emitted
  {
    if imports == [] then e
    else EmitImport(b, EmitImports(b, e, imports[..|imports| - 1]), imports[|imports| - 1])
  }

  function EmitFile(b: Bases, e: Emitted, f: File): Emitted
  {
    var name, oft := b.chars + |e.chars|, b.lookup + 4 * |e.lookup|;
    var named := e.(chars := e.chars + EvenString(f.name));
    if f.byway then
      named.(lookup := e.lookup + [ORDINAL_FLAG + 1, 0], bound := e.bound + [ORDINAL_FLAG + 1, 0],
      table := e.table + [Desc(oft, f.chain, name, b.bound + 4 * |e.bound|)])
    else
      var done := EmitImports(b, named, f.imports);
      done.(lookup := done.lookup + [0],
      table := e.table + [Desc(if b.many then oft else 0, f.chain, name, f.firstThunk)])
  }

  function EmitFiles(b: Bases, files: seq<File>): Emitted
  {
    if files == [] then NOTHING else EmitFile(b, EmitFiles(b, files[..|files| - 1]), files[|files| - 1])
  }

  lemma EvenStringSize(s: seq<byte>)
    ensures |EvenString(s)| == Even(|s| + 1) && |EvenString(s)| % 2 == 0
  {
  }

  /** Later emission only appends. */
  ghost predicate Extends(e: Emitted, n: Emitted)
  {
    e.lookup <= n.lookup && e.bound <= n.bound && e.chars <= n.chars && e.table <= n.table
  }

  lemma {:induction false} ImportsSize(b: Bases, e: Emitted, imports: seq<Import>)
    ensures var n := EmitImports(b, e, imports);
            && Extends(e, n) && n.bound == e.bound && n.table == e.table
            && |n.lookup| == |e.lookup| + |imports| && |n.chars| == |e.chars| + ImportsChars(imports)
  {
    if imports != [] {
      ImportsSize(b, e, imports[..|imports| - 1]);
      var i := imports[|imports| - 1];
      if i.name.Some? { EvenStringSize(i.name.value); }
    }
  }

  lemma FileSize(b: Bases, e: Emitted, f: File)
    ensures var n := EmitFile(b, e, f);
            && Extends(e, n) && |n.table| == |e.table| + 1 && n.table[|e.table|].name == b.chars + |e.chars|
            && |n.lookup| == |e.lookup| + FileThunks(f) && |n.chars| == |e.chars| + FileChars(f)
            && |n.bound| == |e.bound| + if f.byway then 2 else 0
  {
    hide EmitImports, ImportsChars;
    var named := e.(chars := e.chars + EvenString(f.name));
    EvenStringSize(f.name);
    ImportsSize(b, named, f.imports);
  }

  /** The second pass uses exactly the thunks and characters the first one counted. */
  lemma {:induction false} FilesSize(b: Bases, files: seq<File>)
    ensures var n := EmitFiles(b, files);
            && |n.lookup| == Thunks(files) && |n.chars| == Chars(files) && |n.table| == |files|
            && |n.bound| == 2 * Byways(files)
    ensures 2 * Byways(files) <= Thunks(files)
  {
    hide EmitFile, FileChars;
    if files != [] {
      FilesSize(b, files[..|files| - 1]);
      FileSize(b, EmitFiles(b, files[..|files| - 1]), files[|files| - 1]);
    }
  }

  lemma {:induction false} FilesExtend(b: Bases, files: seq<File>, k: nat)
    requires k <= |files|
    ensures Extends(EmitFiles(b, files[..k]), EmitFiles(b, files))
    decreases |files|
  {
    hide EmitFile, FileThunks, FileChars;
    if k < |files| {
      var front := files[..|files| - 1];
      assert front[..k] == files[..k];
      FilesExtend(b, front, k);
      FileSize(b, EmitFiles(b, front), files[|files| - 1]);
    } else {
      assert files[..k] == files;
    }
  }

  lemma CountsMonotone(files: seq<File>, k: nat)
    requires k < |files|
    ensures Thunks(files[..k + 1]) == Thunks(files[..k]) + FileThunks(files[k])
    ensures Chars(files[..k + 1]) == Chars(files[..k]) + FileChars(files[k])
    ensures Byways(files[..k + 1]) == Byways(files[..k]) + if files[k].byway then 1 else 0
  {
    assert files[..k + 1][..k] == files[..k];
  }
}

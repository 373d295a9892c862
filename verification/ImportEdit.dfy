/** Editing the import list through callbacks, and resetting it (CImage::EditImports,
    DetourBinaryResetImports). */
module ImportEdit {
  import opened Options
  import opened Memory
  import opened ImportEmit
  import opened ImportCallbacks

  // ------------------------------------------------------------------ what editing cannot change

  function Bare(imports: seq<Import>): (r: seq<Import>)
    ensures |r| == |imports|
  {
    seq(|imports|, n requires 0 <= n < |imports| => imports[n].(name := None, ordinal := 0))
  }

  /** The files of the image itself, without their current names and ordinals. */
  function Skeleton(files: seq<File>): seq<File>
  {
    if files == [] then []
    else
      var k := |files| - 1;
      Skeleton(files[..k]) + if files[k].byway then [] else [files[k].(name := [], imports := Bare(files[k].imports))]
  }

  // ---------------------------------------------------------------------------- what reset makes

  function ResetImport(i: Import): Import
  {
    if i.orig.Some? then i.(name := i.orig, ordinal := 0)
    else if i.origOrdinal != 0 then i.(name := None, ordinal := i.origOrdinal)
    else i
  }

  function ResetImports(imports: seq<Import>): (r: seq<Import>)
    ensures |r| == |imports|
  {
    seq(|imports|, n requires 0 <= n < |imports| => ResetImport(imports[n]))
  }

  function ResetFile(f: File): File
  {
    f.(name := if f.orig.Some? then f.orig.value else f.name, imports := ResetImports(f.imports))
  }

  function ResetAll(files: seq<File>): seq<File>
  {
    if files == [] then []
    else
      var k := |files| - 1;
      ResetAll(files[..k]) + if files[k].byway then [] else [ResetFile(files[k])]
  }

  lemma {:induction false} SkeletonAppend(a: seq<File>, b: seq<File>)
    ensures Skeleton(a + b) == Skeleton(a) + Skeleton(b)
    decreases |b|
  {
    hide Bare;
    if b == [] {
      assert a + b == a;
    } else {
      var k := |b| - 1;
      assert (a + b)[..|a + b| - 1] == a + b[..k];
      SkeletonAppend(a, b[..k]);
    }
  }

  // ---------------------------------------------------------------------------------- the edit

  class ImportList {
    var files: seq<File>
    var nImportFiles: int

    constructor (files: seq<File>)
      ensures this.files == files && nImportFiles == |files|
    {
      this.files, nImportFiles := files, |files|;
    }

    /** The symbol callback for each import of one file. */
    static method EditSymbols(imports: seq<Import>, editor: Editor)
      returns (ok: bool, edited: seq<Import>, rest: Editor)
      ensures Bare(edited) == Bare(imports) && Left(rest) <= Left(editor) && (rest.Resetting? <==> editor.Resetting?)
      ensures editor.Resetting? ==> ok && edited == ResetImports(imports)
      ensures SymbolsAfter(imports, editor) == SymbolsEdited(ok, edited, rest)
    {
      hide ResetImport, SymbolsAfter, SymbolsAhead;
      edited, rest := imports, editor;
      var n := 0;
      SymbolsStart(imports, editor);
      while n < |imports|
        invariant 0 <= n <= |imports| == |edited|
        invariant forall m :: 0 <= m < |imports| ==>
                                edited[m].(name := None, ordinal := 0) == imports[m].(name := None, ordinal := 0)
        invariant forall m :: n <= m < |imports| ==> edited[m] == imports[m]
        invariant Left(rest) <= Left(editor) && (rest.Resetting? <==> editor.Resetting?)
        invariant SymbolsAhead(imports, editor, edited, n, rest)
        invariant editor.Resetting? ==> forall m :: 0 <= m < n ==> edited[m] == ResetImport(imports[m])
      {
        var i := edited[n];
        var answer := SymbolAnswer(rest, i);
        SymbolsStep(imports, editor, edited, n, rest);
        assert edited[n := i] == edited;
        rest := Asked(rest);
        if answer == Refuse {
          return false, edited, rest;
        }
        ResetByCallback(i);
        match answer {
          case Rename(name) => edited := edited[n := i.(ordinal := 0, name := Some(name))];
          case Number(ordinal) => if ordinal != 0 { edited := edited[n := i.(ordinal := ordinal, name := None)]; }
          case _ =>
        }
        n := n + 1;
      }
      SymbolsDone(imports, editor, edited, rest);
      return true, edited, rest;
    }

    /** NewByway, linked in at `k`. */
    method InsertByway(k: nat, name: seq<byte>)
      requires k <= |files|
      modifies this
      ensures files == old(files[..k] + [Byway(name)] + files[k..]) && nImportFiles == old(nImportFiles) + 1
    {
      files := files[..k] + [Byway(name)] + files[k..];
      nImportFiles := nImportFiles + 1;
    }

    /** The callbacks for a file that is already in the list. */
    static method EditFile(f: File, editor: Editor, hasByway: bool, hasFile: bool, hasSymbol: bool)
      returns (verdict: Verdict, g: File, rest: Editor)
      ensures g.byway == f.byway && Stripped(g) == Stripped(f)
      ensures Left(rest) <= Left(editor) && (rest.Resetting? <==> editor.Resetting?)
      ensures verdict == Gone ==> f.byway && hasByway
      ensures !hasByway && f.byway ==> verdict == Kept && g == f
      ensures editor.Resetting? && hasByway && hasFile && hasSymbol ==>
                if f.byway then verdict == Gone else verdict == Kept && g == ResetFile(f)
      ensures FileAfter(f, editor, Hooks(hasByway, hasFile, hasSymbol)) == FileEdited(verdict, g, rest)
    {
      hide Bare, ResetImports, SymbolsAfter;
      verdict, g, rest := Kept, f, editor;
      if f.byway {
        if hasByway {
          var answer := Next(rest);
          rest := Asked(rest);
          match answer {
            case Refuse => verdict := Failed;
            case Rename(name) => g := g.(name := name);
            case Same =>
            case _ => verdict := Gone;
          }
        }
        return;
      }
      if hasFile {
        var answer := FileAnswer(rest, f);
        rest := Asked(rest);
        if answer == Refuse {
          return Failed, g, rest;
        }
        if answer.Rename? { g := g.(name := answer.name); }
      }
      if hasSymbol {
        var ok, imports, after := EditSymbols(f.imports, rest);
        g, rest := g.(imports := imports), after;
        if !ok { verdict := Failed; }
      }
    }

    /** EditImports: `hasByway`, `hasFile` and `hasSymbol` say which callbacks there are, `commit` what the
        last one returns. The list is edited as the callbacks answer. Whatever they do, and even when it
        fails half way, the image's own files stay, in order, with all they originally had; and resetting
        makes the list what ResetAll says. */
    method EditImports(callbacks: Editor, hasByway: bool, hasFile: bool, hasSymbol: bool, commit: bool)
      returns (ok: bool)
      modifies this
      ensures var e := EditAll(old(files), callbacks, Hooks(hasByway, hasFile, hasSymbol));
              files == e.files && ok == (e.ok && commit)
      ensures Skeleton(files) == Skeleton(old(files))
      ensures nImportFiles - |files| == old(nImportFiles - |files|)
      ensures !hasByway ==> KeepsByways(old(files), files)
      ensures callbacks.Resetting? && hasByway && hasFile && hasSymbol ==> files == ResetAll(old(files)) && ok == commit
    {
      hide Skeleton, Bare, ResetAll, ResetImports, ResetFile, Progress, Stripped, KeepsByways, EditAll, Ahead,
        FileAfter;
      var editor := callbacks;
      var k := 0;
      ghost var hooks := Hooks(hasByway, hasFile, hasSymbol);
      AheadStart(files, callbacks, hooks);
      ghost var was, j, full := files, 0, callbacks.Resetting? && hasByway && hasFile && hasSymbol;
      ProgressStart(was, full);
      while k < |files|
        invariant 0 <= k <= |files| && 0 <= j <= |was| && Progress(files, k, was, j, full)
        invariant nImportFiles - |files| == old(nImportFiles - |files|)
        invariant editor.Resetting? <==> callbacks.Resetting?
        invariant !hasByway ==> k == j && KeepsByways(was, files)
        invariant Ahead(was, callbacks, files, k, editor, hooks)
        decreases Left(editor), |files| - k
      {
        ProgressWhole(files, k, was, j, full);
        AheadTurn(was, callbacks, files, k, editor, hooks);
        if hasByway {
          var answer := Next(editor);
          editor := Asked(editor);
          if answer == Refuse {
            return false;
          }
          if answer.Rename? {
            ProgressInsert(files, k, was, j, answer.name);
            InsertByway(k, answer.name);
            k := k + 1;
            continue;
          }
        }
        var verdict, g, rest := EditFile(files[k], editor, hasByway, hasFile, hasSymbol);
        editor := rest;
        if verdict == Gone {
          ProgressDelete(files, k, was, j, full);
          files := files[..k] + files[k + 1..];
          nImportFiles := nImportFiles - 1;
          j := j + 1;
          continue;
        }
        ProgressStep(files, k, was, j, full, g);
        if !hasByway { KeepsStep(was, files, k, g); }
        files := files[k := g];
        k, j := k + 1, j + 1;
        ProgressWhole(files, k, was, j, full);
        if verdict == Failed {
          return false;
        }
      }
      ProgressWhole(files, k, was, j, full);
      while hasByway && Next(editor).Rename?
        invariant k == |files| && Progress(files, k, was, |was|, full)
        invariant nImportFiles - |files| == old(nImportFiles - |files|)
        invariant editor.Resetting? <==> callbacks.Resetting?
        invariant !hasByway ==> KeepsByways(was, files)
        invariant Ahead(was, callbacks, files, k, editor, hooks)
        decreases Left(editor)
      {
        ProgressInsert(files, k, was, |was|, Next(editor).name);
        AheadInsert(was, callbacks, files, k, editor, hooks);
        InsertByway(k, Next(editor).name);
        editor := Asked(editor);
        k := k + 1;
      }
      ProgressWhole(files, k, was, |was|, full);
      AheadEnd(was, callbacks, files, editor, hooks);
      return !(hasByway && Next(editor) == Refuse) && commit;
    }
  }

  /** What the symbol callback of a reset does to one import. */
  lemma ResetByCallback(i: Import)
    ensures match SymbolAnswer(Resetting, i)
            case Rename(name) => ResetImport(i) == i.(ordinal := 0, name := Some(name))
            case Number(ordinal) => ResetImport(i) == if ordinal != 0 then i.(ordinal := ordinal, name := None) else i
            case _ => false
  {
  }

  function Stripped(f: File): File { f.(name := [], imports := Bare(f.imports)) }

  /** Inserted files are as they were. */
  ghost predicate KeepsByways(was: seq<File>, files: seq<File>)
  {
    |files| == |was| && forall k :: 0 <= k < |was| ==>
                                      files[k].byway == was[k].byway && (was[k].byway ==> files[k] == was[k])
  }

  lemma KeepsStep(was: seq<File>, files: seq<File>, k: nat, g: File)
    requires KeepsByways(was, files) && k < |files| && g.byway == files[k].byway && (g.byway ==> g == files[k])
    ensures KeepsByways(was, files[k := g])
  {
  }

  /** The list before `k` comes from the first `j` files there were, the rest is untouched. */
  ghost predicate Progress(files: seq<File>, k: nat, was: seq<File>, j: nat, full: bool)
  {
    && k <= |files| && j <= |was| && files[k..] == was[j..]
    && Skeleton(files[..k]) == Skeleton(was[..j])
    && (full ==> files[..k] == ResetAll(was[..j]))
  }

  lemma ProgressStart(was: seq<File>, full: bool)
    ensures Progress(was, 0, was, 0, full) && KeepsByways(was, was)
  {
  }

  lemma ProgressWhole(files: seq<File>, k: nat, was: seq<File>, j: nat, full: bool)
    requires Progress(files, k, was, j, full)
    ensures Skeleton(files) == Skeleton(was) && |files| - k == |was| - j
    ensures full && k == |files| ==> files == ResetAll(was)
  {
    hide Skeleton, ResetAll;
    assert files == files[..k] + files[k..] && was == was[..j] + was[j..];
    SkeletonAppend(files[..k], files[k..]);
    SkeletonAppend(was[..j], was[j..]);
    assert |files[k..]| == |was[j..]|;
    if k == |files| { assert files[..k] == files && was[..j] == was; }
  }

  lemma SkeletonOne(a: seq<File>, f: File)
    ensures Skeleton(a + [f]) == Skeleton(a) + if f.byway then [] else [Stripped(f)]
  {
    assert (a + [f])[..|a|] == a;
  }

  lemma ResetOne(a: seq<File>, f: File)
    ensures ResetAll(a + [f]) == ResetAll(a) + if f.byway then [] else [ResetFile(f)]
  {
    assert (a + [f])[..|a|] == a;
  }

  lemma ProgressInsert(files: seq<File>, k: nat, was: seq<File>, j: nat, name: seq<byte>)
    requires Progress(files, k, was, j, false)
    ensures Progress(files[..k] + [Byway(name)] + files[k..], k + 1, was, j, false)
  {
    hide Skeleton, ResetAll;
    var now := files[..k] + [Byway(name)] + files[k..];
    assert now[..k + 1] == files[..k] + [Byway(name)] && now[k + 1..] == files[k..];
    SkeletonOne(files[..k], Byway(name));
  }

  lemma ProgressDelete(files: seq<File>, k: nat, was: seq<File>, j: nat, full: bool)
    requires Progress(files, k, was, j, full) && k < |files| && files[k].byway
    ensures j < |was| && Progress(files[..k] + files[k + 1..], k, was, j + 1, full)
  {
    hide Skeleton, ResetAll;
    assert |files[k..]| == |was[j..]| && files[k..][0] == was[j..][0] == was[j];
    var now := files[..k] + files[k + 1..];
    assert now[..k] == files[..k] && now[k..] == files[k..][1..] && was[j + 1..] == was[j..][1..];
    assert was[..j + 1] == was[..j] + [was[j]];
    SkeletonOne(was[..j], was[j]);
    ResetOne(was[..j], was[j]);
  }

  lemma ProgressStep(files: seq<File>, k: nat, was: seq<File>, j: nat, full: bool, g: File)
    requires Progress(files, k, was, j, full) && k < |files|
    requires g.byway == files[k].byway && Stripped(g) == Stripped(files[k])
    requires full ==> !g.byway && g == ResetFile(files[k])
    ensures j < |was| && files[k] == was[j] && Progress(files[k := g], k + 1, was, j + 1, full)
  {
    hide Skeleton, ResetAll, Stripped, ResetFile;
    assert |files[k..]| == |was[j..]| && files[k..][0] == was[j..][0] == was[j];
    var now := files[k := g];
    assert now[..k + 1] == files[..k] + [g] && now[k + 1..] == files[k..][1..] && was[j + 1..] == was[j..][1..];
    assert was[..j + 1] == was[..j] + [was[j]];
    SkeletonOne(files[..k], g);
    SkeletonOne(was[..j], was[j]);
    ResetOne(was[..j], was[j]);
  }

  // ----------------------------------------------------------------------- what resetting restores

  /** An import as read: by its original name, or by its original ordinal. */
  ghost predicate PristineImport(i: Import)
  {
    i.name == i.orig && i.ordinal == (if i.orig.Some? then 0 else i.origOrdinal)
  }

  ghost predicate Pristine(files: seq<File>)
  {
    forall k :: 0 <= k < |files| ==>
                  && !files[k].byway && files[k].orig == Some(files[k].name)
                  && forall n :: 0 <= n < |files[k].imports| ==> PristineImport(files[k].imports[n])
  }

  /** The image recorded what the import was. */
  predicate Recorded(i: Import) { i.orig.Some? || i.origOrdinal != 0 }

  ghost predicate AllRecorded(files: seq<File>)
  {
    forall k :: 0 <= k < |files| ==> forall n :: 0 <= n < |files[k].imports| ==> Recorded(files[k].imports[n])
  }

  /** An import comes back from any edit exactly when the image recorded its name or an ordinal other than
      zero. */
  lemma ImportComesBack(i: Import)
    requires PristineImport(i)
    ensures (forall name, ordinal :: ResetImport(i.(name := name, ordinal := ordinal)) == i) <==> Recorded(i)
  {
    if !Recorded(i) {
      assert ResetImport(i.(name := Some([]), ordinal := 0)) != i;
    }
  }

  lemma ImportsComeBack(a: seq<Import>, b: seq<Import>)
    requires Bare(a) == Bare(b)
    requires forall n :: 0 <= n < |b| ==> PristineImport(b[n]) && Recorded(b[n])
    ensures ResetImports(a) == b
  {
    assert |a| == |Bare(a)| == |Bare(b)| == |b|;
    forall n | 0 <= n < |b| ensures ResetImport(a[n]) == b[n] {
      assert Bare(a)[n] == Bare(b)[n];
    }
  }

  lemma FileComesBack(f: File, g: File)
    requires Stripped(f) == Stripped(g) && g.orig == Some(g.name)
    requires forall n :: 0 <= n < |g.imports| ==> PristineImport(g.imports[n]) && Recorded(g.imports[n])
    ensures ResetFile(f) == g
  {
    hide Bare, ResetImports;
    ImportsComeBack(f.imports, g.imports);
    StrippedParts(f, g);
  }

  lemma StrippedParts(f: File, g: File)
    requires Stripped(f) == Stripped(g)
    ensures f.(name := g.name, imports := g.imports) == g
  {
    hide Bare;
    assert Stripped(f).(name := g.name, imports := g.imports) == Stripped(g).(name := g.name, imports := g.imports);
  }

  lemma LastFile(b: seq<File>)
    requires Pristine(b) && AllRecorded(b) && b != []
    ensures Pristine(b[..|b| - 1]) && AllRecorded(b[..|b| - 1])
    ensures var g := b[|b| - 1];
            g.orig == Some(g.name) && forall n :: 0 <= n < |g.imports| ==>
                                                    PristineImport(g.imports[n]) && Recorded(g.imports[n])
  {
    hide PristineImport, Recorded;
  }

  lemma SomeSkeleton(b: seq<File>)
    requires b != [] && Pristine(b)
    ensures Skeleton(b) != []
  {
    hide Bare;
    assert !b[|b| - 1].byway;
  }

  lemma {:induction false} FilesComeBack(a: seq<File>, b: seq<File>)
    requires Skeleton(a) == Skeleton(b) && Pristine(b) && AllRecorded(b)
    ensures ResetAll(a) == b
    decreases |a|
  {
    hide Stripped, ResetFile, Pristine, AllRecorded, PristineImport, Recorded, Skeleton;
    if a == [] {
      NoSkeleton();
      if b != [] { SomeSkeleton(b); }
    } else {
      var k := |a| - 1;
      assert a == a[..k] + [a[k]];
      SkeletonOne(a[..k], a[k]);
      if a[k].byway {
        FilesComeBack(a[..k], b);
      } else {
        LastAlike(a, b);
        LastFile(b);
        FilesComeBack(a[..k], b[..|b| - 1]);
        FileComesBack(a[k], b[|b| - 1]);
        assert b == b[..|b| - 1] + [b[|b| - 1]];
      }
    }
  }

  lemma NoSkeleton()
    ensures Skeleton([]) == []
  {
  }

  lemma LastAlike(a: seq<File>, b: seq<File>)
    requires a != [] && !a[|a| - 1].byway && Skeleton(a) == Skeleton(b) && Pristine(b)
    ensures b != [] && Stripped(a[|a| - 1]) == Stripped(b[|b| - 1]) && Skeleton(a[..|a| - 1]) == Skeleton(b[..|b| - 1])
  {
    hide Bare;
    assert Skeleton(a) != [];
    var x, y := Skeleton(a), Skeleton(b);
    assert x[..|x| - 1] == Skeleton(a[..|a| - 1]);
    assert b != [];
    assert !b[|b| - 1].byway;
    assert y[..|y| - 1] == Skeleton(b[..|b| - 1]);
  }

  /** Whatever edits were made to the import list of an image as read, successful or not, resetting gives
      it back, and the image then needs no import section. */
  lemma ResetRestores(edited: seq<File>, read: seq<File>)
    requires Skeleton(edited) == Skeleton(read) && Pristine(read) && AllRecorded(read)
    ensures ResetAll(edited) == read && !Needed(ResetAll(edited))
  {
    hide Skeleton, ResetAll;
    FilesComeBack(edited, read);
    forall k | 0 <= k < |read| ensures !Renamed(read[k]) {
      forall n | 0 <= n < |read[k].imports| ensures !Differ(read[k].imports[n].name, read[k].imports[n].orig) {
        assert PristineImport(read[k].imports[n]);
      }
    }
  }

  // ----------------------------------------------------------------------- what an edit shows of itself

  function Unnumbered(imports: seq<Import>): (r: seq<Import>)
    ensures |r| == |imports|
  {
    seq(|imports|, n requires 0 <= n < |imports| => imports[n].(ordinal := 0))
  }

  /** The two lists agree in everything but ordinals. */
  ghost predicate SameNames(a: seq<File>, b: seq<File>)
  {
    |a| == |b| && forall k :: 0 <= k < |a| ==>
                                a[k].(imports := Unnumbered(a[k].imports)) == b[k].(imports := Unnumbered(b[k].imports))
  }

  lemma {:induction false} OwnSkeleton(files: seq<File>)
    requires forall k :: 0 <= k < |files| ==> !files[k].byway
    ensures |Skeleton(files)| == |files|
    ensures forall k :: 0 <= k < |files| ==> Skeleton(files)[k] == Stripped(files[k])
  {
    hide Bare;
    if files != [] { OwnSkeleton(files[..|files| - 1]); }
  }

  lemma PlainFile(f: File, g: File)
    requires Stripped(f) == Stripped(g) && g.orig == Some(g.name) && !Renamed(f)
    requires forall n :: 0 <= n < |g.imports| ==> PristineImport(g.imports[n])
    ensures f.(imports := Unnumbered(f.imports)) == g.(imports := Unnumbered(g.imports))
  {
    StrippedParts(f, g);
    assert |f.imports| == |Bare(f.imports)| == |Bare(g.imports)| == |g.imports|;
    forall n | 0 <= n < |g.imports| ensures f.imports[n].(ordinal := 0) == g.imports[n].(ordinal := 0) {
      assert Bare(f.imports)[n] == Bare(g.imports)[n];
      assert !Differ(f.imports[n].name, f.imports[n].orig) && PristineImport(g.imports[n]);
    }
    assert Unnumbered(f.imports) == Unnumbered(g.imports);
  }

  lemma PlainImports(f: File, g: File)
    requires f.(imports := Unnumbered(f.imports)) == g.(imports := Unnumbered(g.imports))
    requires !g.byway && g.orig == Some(g.name)
    requires forall n :: 0 <= n < |g.imports| ==> PristineImport(g.imports[n])
    ensures !f.byway && !Renamed(f)
  {
    var x, y := f.(imports := Unnumbered(f.imports)), g.(imports := Unnumbered(g.imports));
    assert f.name == x.name == y.name == g.name && f.orig == x.orig == y.orig == g.orig && f.byway == x.byway;
    assert |f.imports| == |x.imports| == |y.imports| == |g.imports|;
    forall n | 0 <= n < |f.imports| ensures !Differ(f.imports[n].name, f.imports[n].orig) {
      assert x.imports[n] == y.imports[n] && PristineImport(g.imports[n]);
      assert f.imports[n].name == x.imports[n].name && f.imports[n].orig == x.imports[n].orig;
    }
  }

  /** After an edit of the list as read, a new import section is found needed exactly when something other
      than an ordinal has changed. */
  lemma NeededIff(edited: seq<File>, read: seq<File>)
    requires Skeleton(edited) == Skeleton(read) && Pristine(read)
    ensures Needed(edited) <==> !SameNames(edited, read)
  {
    hide Skeleton, Stripped, Unnumbered, Renamed, PristineImport;
    OwnSkeleton(read);
    if !Needed(edited) {
      OwnSkeleton(edited);
      forall k | 0 <= k < |edited|
        ensures edited[k].(imports := Unnumbered(edited[k].imports)) == read[k].(imports := Unnumbered(read[k].imports))
      {
        assert Skeleton(edited)[k] == Skeleton(read)[k];
        PlainFile(edited[k], read[k]);
      }
    }
    if SameNames(edited, read) {
      forall k | 0 <= k < |edited| ensures !edited[k].byway && !Renamed(edited[k]) { PlainImports(edited[k], read[k]); }
    }
  }

  /** A symbol callback that moves an import from ordinal 1 to ordinal 2 changes the list, and no new
      section is found needed for it. */
  lemma OrdinalUnseen(f: File, hint: int)
    requires !f.byway && f.orig == Some(f.name) && f.imports == [Import(hint, None, 1, None, 1)]
    ensures var e := EditAll([f], Oracle([Number(2)]), Hooks(false, false, true));
            e.ok && e.files == [f.(imports := [Import(hint, None, 2, None, 1)])] && !Needed(e.files)
  {
    var s := Script([], Pass, Pass, [Number(2)]);
    var made := f.(imports := [Import(hint, None, 2, None, 1)]);
    var hooks := Hooks(false, false, true);
    EditMakes([f], [s], [], Pass, hooks);
    assert AllAnswered(f.imports, s.symbols) == made.imports;
    assert AllAnswers([f], [s], hooks) + Opening([], Pass, hooks) == [Number(2)];
    assert AllMade([f], [s], hooks) + NewByways([]) == [made];
    assert !Renamed(made);
  }
}

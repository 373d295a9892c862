/** What the callbacks of an edit of the import list ask for: the list as their answers make it. */
module ImportCallbacks {
  import opened Options
  import opened Memory
  import opened ImportEmit

  /** What a callback returns: failure, NULL, the name it was given, a name of its own or, for a symbol,
      an ordinal. */
  datatype Answer = Refuse | Pass | Same | Rename(name: seq<byte>) | Number(ordinal: int)

  /** The callbacks of an edit as their answers in the order they will be asked for, NULL once these run
      out; or the callbacks of a reset. */
  datatype Editor = Oracle(answers: seq<Answer>) | Resetting

  function Next(ed: Editor): Answer
  {
    if ed.Oracle? && ed.answers != [] then ed.answers[0] else Pass
  }

  function Asked(ed: Editor): Editor
  {
    if ed.Oracle? && ed.answers != [] then Oracle(ed.answers[1..]) else ed
  }

  function Left(ed: Editor): nat { if ed.Oracle? then |ed.answers| else 0 }

  function FileAnswer(ed: Editor, f: File): Answer
  {
    if ed.Oracle? then Next(ed) else if f.orig.Some? then Rename(f.orig.value) else Pass
  }

  function SymbolAnswer(ed: Editor, i: Import): Answer
  {
    if ed.Oracle? then Next(ed) else if i.orig.Some? then Rename(i.orig.value) else Number(i.origOrdinal)
  }

  datatype Verdict = Kept | Gone | Failed

  function Byway(name: seq<byte>): File { File(name, None, true, 0, 0, []) }

  // ---------------------------------------------------------------------- the edit, call by call

  /** Which callbacks there are. */
  datatype Hooks = Hooks(byway: bool, file: bool, symbol: bool)

  datatype SymbolsEdited = SymbolsEdited(ok: bool, imports: seq<Import>, rest: Editor)

  datatype FileEdited = FileEdited(verdict: Verdict, file: File, rest: Editor)

  datatype Edited = Edited(ok: bool, files: seq<File>, rest: Editor)

  /** An import after its callback has answered. */
  function Answered(i: Import, a: Answer): Import
  {
    match a
    case Rename(name) => i.(ordinal := 0, name := Some(name))
    case Number(ordinal) => if ordinal != 0 then i.(ordinal := ordinal, name := None) else i
    case _ => i
  }

  function SymbolsAfter(imports: seq<Import>, ed: Editor): (r: SymbolsEdited)
    ensures Left(r.rest) <= Left(ed)
  {
    if imports == [] then SymbolsEdited(true, [], ed)
    else
      var answer := SymbolAnswer(ed, imports[0]);
      if answer == Refuse then SymbolsEdited(false, imports, Asked(ed))
      else
        var r := SymbolsAfter(imports[1..], Asked(ed));
        r.(imports := [Answered(imports[0], answer)] + r.imports)
  }

  function BywayAfter(f: File, ed: Editor): (r: FileEdited)
    ensures Left(r.rest) <= Left(ed)
  {
    match Next(ed)
    case Refuse => FileEdited(Failed, f, Asked(ed))
    case Rename(name) => FileEdited(Kept, f.(name := name), Asked(ed))
    case Same => FileEdited(Kept, f, Asked(ed))
    case _ => FileEdited(Gone, f, Asked(ed))
  }

  function NamesAfter(f: File, ed: Editor, hooks: Hooks): (r: FileEdited)
    ensures Left(r.rest) <= Left(ed)
  {
    if !hooks.symbol then FileEdited(Kept, f, ed)
    else
      var r := SymbolsAfter(f.imports, ed);
      FileEdited(if r.ok then Kept else Failed, f.(imports := r.imports), r.rest)
  }

  function FileAfter(f: File, ed: Editor, hooks: Hooks): (r: FileEdited)
    ensures Left(r.rest) <= Left(ed)
  {
    if f.byway then (if hooks.byway then BywayAfter(f, ed) else FileEdited(Kept, f, ed))
    else if !hooks.file then NamesAfter(f, ed, hooks)
    else
      var answer := FileAnswer(ed, f);
      if answer == Refuse then FileEdited(Failed, f, Asked(ed))
      else NamesAfter(if answer.Rename? then f.(name := answer.name) else f, Asked(ed), hooks)
  }

  function Prefixed(a: seq<File>, e: Edited): Edited { e.(files := a + e.files) }

  /** EditImports from the file at the head of `files` on; `ok` leaves the commit callback out. */
  function EditAll(files: seq<File>, ed: Editor, hooks: Hooks): Edited
    decreases Left(ed), |files|
  {
    if hooks.byway && Next(ed) == Refuse then Edited(false, files, Asked(ed))
    else if hooks.byway && Next(ed).Rename? then Prefixed([Byway(Next(ed).name)], EditAll(files, Asked(ed), hooks))
    else
      var after := if hooks.byway then Asked(ed) else ed;
      if files == [] then Edited(true, [], after)
      else
        var r := FileAfter(files[0], after, hooks);
        match r.verdict
        case Failed => Edited(false, [r.file] + files[1..], r.rest)
        case Gone => EditAll(files[1..], r.rest, hooks)
        case Kept => Prefixed([r.file], EditAll(files[1..], r.rest, hooks))
  }

  // ---------------------------------------------------------------------- the edit as a whole

  /** What is answered about one file: the DLLs put in front of it, closed by an answer that names none;
      what becomes of the file itself; and one answer for each import. */
  datatype Script = Script(before: seq<seq<byte>>, close: Answer, own: Answer, symbols: seq<Answer>)

  predicate NamesNone(a: Answer) { !a.Rename? && !a.Refuse? }

  predicate Fits(f: File, s: Script, hooks: Hooks)
  {
    && NamesNone(s.close) && s.own != Refuse && |s.symbols| == |f.imports| && Refuse !in s.symbols
    && (!hooks.byway ==> s.before == [])
  }

  function Renames(names: seq<seq<byte>>): (r: seq<Answer>)
    ensures |r| == |names|
  {
    seq(|names|, k requires 0 <= k < |names| => Rename(names[k]))
  }

  function NewByways(names: seq<seq<byte>>): (r: seq<File>)
    ensures |r| == |names|
  {
    seq(|names|, k requires 0 <= k < |names| => Byway(names[k]))
  }

  predicate OwnAsked(f: File, hooks: Hooks) { if f.byway then hooks.byway else hooks.file }

  /** The answers in the order the callbacks give them: first those before the file, then the rest. */
  function Opening(names: seq<seq<byte>>, close: Answer, hooks: Hooks): seq<Answer>
  {
    if hooks.byway then Renames(names) + [close] else []
  }

  function Answers(f: File, s: Script, hooks: Hooks): seq<Answer>
  {
    Opening(s.before, s.close, hooks)
    + ((if OwnAsked(f, hooks) then [s.own] else []) + (if !f.byway && hooks.symbol then s.symbols else []))
  }

  function AllAnswers(files: seq<File>, scripts: seq<Script>, hooks: Hooks): seq<Answer>
    requires |scripts| == |files|
  {
    if files == [] then [] else Answers(files[0], scripts[0], hooks) + AllAnswers(files[1..], scripts[1..], hooks)
  }

  function AllAnswered(imports: seq<Import>, answers: seq<Answer>): (r: seq<Import>)
    requires |answers| == |imports|
    ensures |r| == |imports|
  {
    seq(|imports|, n requires 0 <= n < |imports| => Answered(imports[n], answers[n]))
  }

  /** A file as it was answered: an inserted one kept, renamed or, without a name, taken out; one of the
      image's own with the name and the imports it was given. */
  function FileMade(f: File, s: Script, hooks: Hooks): seq<File>
    requires |s.symbols| == |f.imports|
  {
    if f.byway && hooks.byway then
      if s.own.Rename? then [f.(name := s.own.name)] else if s.own.Same? then [f] else []
    else if f.byway then [f]
    else [f.(name := if hooks.file && s.own.Rename? then s.own.name else f.name,
          imports := if hooks.symbol then AllAnswered(f.imports, s.symbols) else f.imports)]
  }

  function Made(f: File, s: Script, hooks: Hooks): seq<File>
    requires |s.symbols| == |f.imports|
  {
    NewByways(s.before) + FileMade(f, s, hooks)
  }

  function AllMade(files: seq<File>, scripts: seq<Script>, hooks: Hooks): seq<File>
    requires |scripts| == |files| && AllFit(files, scripts, hooks)
  {
    if files == [] then [] else Made(files[0], scripts[0], hooks) + AllMade(files[1..], scripts[1..], hooks)
  }

  predicate AllFit(files: seq<File>, scripts: seq<Script>, hooks: Hooks)
    requires |scripts| == |files|
  {
    forall k :: 0 <= k < |files| ==> Fits(files[k], scripts[k], hooks)
  }

  lemma Taken(a: Answer, rest: seq<Answer>)
    ensures Next(Oracle([a] + rest)) == a && Asked(Oracle([a] + rest)) == Oracle(rest)
  {
    assert ([a] + rest)[1..] == rest;
  }

  lemma PrefixedTwice(a: seq<File>, b: seq<File>, e: Edited)
    ensures Prefixed(a, Prefixed(b, e)) == Prefixed(a + b, e)
  {
    assert a + (b + e.files) == (a + b) + e.files;
  }

  lemma Grouped(a: seq<Answer>, b: seq<Answer>, c: seq<Answer>)
    ensures (a + b) + c == a + (b + c)
  {
  }

  lemma PrefixedNone(e: Edited)
    ensures Prefixed([], e) == e
  {
    assert [] + e.files == e.files;
  }

  /** Every name given before a file becomes a byway there, in the order given. */
  lemma {:induction false} Inserted(files: seq<File>, names: seq<seq<byte>>, rest: seq<Answer>, hooks: Hooks)
    requires hooks.byway
    ensures EditAll(files, Oracle(Renames(names) + rest), hooks)
         == Prefixed(NewByways(names), EditAll(files, Oracle(rest), hooks))
    decreases |names|
  {
    hide EditAll, Prefixed;
    if names == [] {
      assert Renames(names) + rest == rest && NewByways(names) == [];
      PrefixedNone(EditAll(files, Oracle(rest), hooks));
    } else {
      var tail := Renames(names[1..]) + rest;
      assert Renames(names) + rest == [Rename(names[0])] + tail;
      assert [Byway(names[0])] + NewByways(names[1..]) == NewByways(names);
      Taken(Rename(names[0]), tail);
      InsertStep(files, Oracle([Rename(names[0])] + tail), hooks);
      Inserted(files, names[1..], rest, hooks);
      PrefixedTwice([Byway(names[0])], NewByways(names[1..]), EditAll(files, Oracle(rest), hooks));
    }
  }

  lemma InsertStep(files: seq<File>, ed: Editor, hooks: Hooks)
    requires hooks.byway && Next(ed).Rename?
    ensures EditAll(files, ed, hooks) == Prefixed([Byway(Next(ed).name)], EditAll(files, Asked(ed), hooks))
  {
  }

  lemma {:induction false} SymbolsAnswered(imports: seq<Import>, answers: seq<Answer>, rest: seq<Answer>)
    requires |answers| == |imports| && Refuse !in answers
    ensures SymbolsAfter(imports, Oracle(answers + rest))
         == SymbolsEdited(true, AllAnswered(imports, answers), Oracle(rest))
    decreases |imports|
  {
    if imports == [] {
      assert answers + rest == rest;
    } else {
      assert answers + rest == [answers[0]] + (answers[1..] + rest);
      Taken(answers[0], answers[1..] + rest);
      assert Refuse !in answers[1..];
      SymbolsAnswered(imports[1..], answers[1..], rest);
      assert [Answered(imports[0], answers[0])] + AllAnswered(imports[1..], answers[1..])
          == AllAnswered(imports, answers);
    }
  }

  /** One file, once nothing more is put in front of it. */
  lemma FileAnswered(f: File, s: Script, rest: seq<Answer>, hooks: Hooks)
    requires Fits(f, s, hooks)
    ensures var own := if OwnAsked(f, hooks) then [s.own] else [];
            var symbols := if !f.byway && hooks.symbol then s.symbols else [];
            var r := FileAfter(f, Oracle((own + symbols) + rest), hooks);
            && r.rest == Oracle(rest) && r.verdict != Failed
            && FileMade(f, s, hooks) == (if r.verdict == Kept then [r.file] else [])
  {
    hide SymbolsAfter, AllAnswered;
    var own := if OwnAsked(f, hooks) then [s.own] else [];
    var symbols := if !f.byway && hooks.symbol then s.symbols else [];
    Grouped(own, symbols, rest);
    Taken(s.own, symbols + rest);
    assert [] + (symbols + rest) == symbols + rest;
    assert [] + rest == rest;
    SymbolsAnswered(f.imports, s.symbols, rest);
  }

  lemma FileStep(files: seq<File>, ed: Editor, hooks: Hooks)
    requires files != [] && (hooks.byway ==> NamesNone(Next(ed)))
    ensures var r := FileAfter(files[0], if hooks.byway then Asked(ed) else ed, hooks);
            && (r.verdict == Kept ==>
                  EditAll(files, ed, hooks) == Prefixed([r.file], EditAll(files[1..], r.rest, hooks)))
            && (r.verdict == Gone ==> EditAll(files, ed, hooks) == EditAll(files[1..], r.rest, hooks))
            && (r.verdict == Failed ==> EditAll(files, ed, hooks) == Edited(false, [r.file] + files[1..], r.rest))
  {
    hide FileAfter, Prefixed;
  }

  /** Past the insertions in front of the first file. */
  lemma Opened(files: seq<File>, names: seq<seq<byte>>, close: Answer, rest: seq<Answer>, hooks: Hooks)
    requires files != [] && NamesNone(close) && (!hooks.byway ==> names == [])
    ensures var r := FileAfter(files[0], Oracle(rest), hooks);
            var e := EditAll(files, Oracle(Opening(names, close, hooks) + rest), hooks);
            && (r.verdict == Kept ==>
                  e == Prefixed(NewByways(names) + [r.file], EditAll(files[1..], r.rest, hooks)))
            && (r.verdict == Gone ==> e == Prefixed(NewByways(names), EditAll(files[1..], r.rest, hooks)))
            && (r.verdict == Failed ==> e == Edited(false, NewByways(names) + ([r.file] + files[1..]), r.rest))
  {
    hide EditAll, FileAfter;
    var r := FileAfter(files[0], Oracle(rest), hooks);
    if hooks.byway {
      Grouped(Renames(names), [close], rest);
      Inserted(files, names, [close] + rest, hooks);
      Taken(close, rest);
      FileStep(files, Oracle([close] + rest), hooks);
      PrefixedTwice(NewByways(names), [r.file], EditAll(files[1..], r.rest, hooks));
    } else {
      assert Opening(names, close, hooks) + rest == rest;
      FileStep(files, Oracle(rest), hooks);
      assert NewByways(names) + [r.file] == [r.file]
             && NewByways(names) + ([r.file] + files[1..]) == [r.file] + files[1..];
      PrefixedNone(EditAll(files[1..], r.rest, hooks));
    }
  }

  lemma OneScripted(files: seq<File>, s: Script, rest: seq<Answer>, hooks: Hooks)
    requires files != [] && Fits(files[0], s, hooks)
    ensures EditAll(files, Oracle(Answers(files[0], s, hooks) + rest), hooks)
         == Prefixed(Made(files[0], s, hooks), EditAll(files[1..], Oracle(rest), hooks))
  {
    hide EditAll, FileAfter, FileMade;
    var f := files[0];
    var own := if OwnAsked(f, hooks) then [s.own] else [];
    var symbols := if !f.byway && hooks.symbol then s.symbols else [];
    Grouped(Opening(s.before, s.close, hooks), own + symbols, rest);
    FileAnswered(f, s, rest, hooks);
    Opened(files, s.before, s.close, (own + symbols) + rest, hooks);
    assert NewByways(s.before) + [] == NewByways(s.before);
  }

  /** As far as the callbacks have answered, the list is made of what they answered for each file. */
  lemma {:induction false} Scripted(files: seq<File>, scripts: seq<Script>, more: seq<File>, rest: seq<Answer>,
                                    hooks: Hooks)
    requires |scripts| == |files| && AllFit(files, scripts, hooks)
    ensures EditAll(files + more, Oracle(AllAnswers(files, scripts, hooks) + rest), hooks)
         == Prefixed(AllMade(files, scripts, hooks), EditAll(more, Oracle(rest), hooks))
    decreases |files|
  {
    hide EditAll, Made, Answers;
    if files == [] {
      assert files + more == more && AllAnswers(files, scripts, hooks) + rest == rest;
      PrefixedNone(EditAll(more, Oracle(rest), hooks));
    } else {
      var tail := AllAnswers(files[1..], scripts[1..], hooks);
      Grouped(Answers(files[0], scripts[0], hooks), tail, rest);
      assert (files + more)[1..] == files[1..] + more;
      OneScripted(files + more, scripts[0], tail + rest, hooks);
      Scripted(files[1..], scripts[1..], more, rest, hooks);
      PrefixedTwice(Made(files[0], scripts[0], hooks), AllMade(files[1..], scripts[1..], hooks),
                    EditAll(more, Oracle(rest), hooks));
    }
  }

  /** A whole edit: the list is the byways and files the callbacks named, file by file, then the byways
      named at the end; it fails only when the byway callback refuses in the end. */
  lemma EditMakes(files: seq<File>, scripts: seq<Script>, last: seq<seq<byte>>, close: Answer, hooks: Hooks)
    requires |scripts| == |files| && AllFit(files, scripts, hooks)
    requires !close.Rename? && (!hooks.byway ==> last == [] && close != Refuse)
    ensures var answers := AllAnswers(files, scripts, hooks) + Opening(last, close, hooks);
            var e := EditAll(files, Oracle(answers), hooks);
            e.files == AllMade(files, scripts, hooks) + NewByways(last) && e.ok == (close != Refuse)
  {
    hide AllAnswers, AllMade;
    var rest := Opening(last, close, hooks);
    Scripted(files, scripts, [], rest, hooks);
    assert files + [] == files;
    if hooks.byway {
      Inserted([], last, [close], hooks);
      Taken(close, []);
      assert [close] + [] == [close];
      assert NewByways(last) + [] == NewByways(last);
    }
  }

  // ---------------------------------------------------------------------- an edit that is refused

  /** The byway callback refuses in front of a file. */
  lemma RefusedBefore(files: seq<File>, scripts: seq<Script>, more: seq<File>, names: seq<seq<byte>>, hooks: Hooks)
    requires |scripts| == |files| && AllFit(files, scripts, hooks) && hooks.byway
    ensures var answers := AllAnswers(files, scripts, hooks) + (Renames(names) + [Refuse]);
            var e := EditAll(files + more, Oracle(answers), hooks);
            !e.ok && e.files == AllMade(files, scripts, hooks) + (NewByways(names) + more)
  {
    hide AllAnswers, AllMade;
    Scripted(files, scripts, more, Renames(names) + [Refuse], hooks);
    Inserted(more, names, [Refuse], hooks);
  }

  /** The callback for a file itself refuses. */
  lemma RefusedFile(files: seq<File>, scripts: seq<Script>, f: File, more: seq<File>, names: seq<seq<byte>>,
                    close: Answer, hooks: Hooks)
    requires |scripts| == |files| && AllFit(files, scripts, hooks) && OwnAsked(f, hooks)
    requires NamesNone(close) && (!hooks.byway ==> names == [])
    ensures var answers := AllAnswers(files, scripts, hooks) + (Opening(names, close, hooks) + [Refuse]);
            var e := EditAll(files + ([f] + more), Oracle(answers), hooks);
            !e.ok && e.files == AllMade(files, scripts, hooks) + (NewByways(names) + ([f] + more))
  {
    hide AllAnswers, AllMade, EditAll;
    Scripted(files, scripts, [f] + more, Opening(names, close, hooks) + [Refuse], hooks);
    Opened([f] + more, names, close, [Refuse], hooks);
    assert ([f] + more)[1..] == more;
  }

  lemma {:induction false} SymbolRefused(imports: seq<Import>, answers: seq<Answer>)
    requires |answers| < |imports| && Refuse !in answers
    ensures var r := SymbolsAfter(imports, Oracle(answers + [Refuse]));
            !r.ok && r.imports == AllAnswered(imports[..|answers|], answers) + imports[|answers|..]
    decreases |imports|
  {
    if answers == [] {
      assert [] + [Refuse] == [Refuse];
      assert AllAnswered(imports[..0], []) + imports[0..] == imports;
    } else {
      assert answers + [Refuse] == [answers[0]] + (answers[1..] + [Refuse]);
      Taken(answers[0], answers[1..] + [Refuse]);
      assert Refuse !in answers[1..];
      SymbolRefused(imports[1..], answers[1..]);
      var k := |answers|;
      assert imports[1..][..k - 1] == imports[..k][1..] && imports[1..][k - 1..] == imports[k..];
      assert [Answered(imports[0], answers[0])] + AllAnswered(imports[..k][1..], answers[1..])
          == AllAnswered(imports[..k], answers);
    }
  }

  /** The symbol callback refuses: the imports before it are as answered, all else as it was. */
  lemma RefusedSymbol(files: seq<File>, scripts: seq<Script>, f: File, more: seq<File>, s: Script, hooks: Hooks)
    requires |scripts| == |files| && AllFit(files, scripts, hooks) && !f.byway && hooks.symbol
    requires NamesNone(s.close) && (!hooks.byway ==> s.before == []) && s.own != Refuse
    requires |s.symbols| < |f.imports| && Refuse !in s.symbols
    ensures var own := if hooks.file then [s.own] else [];
            var answers := Opening(s.before, s.close, hooks) + (own + (s.symbols + [Refuse]));
            var e := EditAll(files + ([f] + more), Oracle(AllAnswers(files, scripts, hooks) + answers), hooks);
            var n := |s.symbols|;
            var g := f.(name := if hooks.file && s.own.Rename? then s.own.name else f.name,
                     imports := AllAnswered(f.imports[..n], s.symbols) + f.imports[n..]);
            !e.ok && e.files == AllMade(files, scripts, hooks) + (NewByways(s.before) + ([g] + more))
  {
    hide AllAnswers, AllMade, EditAll, SymbolsAfter;
    var own := if hooks.file then [s.own] else [];
    var rest := own + (s.symbols + [Refuse]);
    Scripted(files, scripts, [f] + more, Opening(s.before, s.close, hooks) + rest, hooks);
    Opened([f] + more, s.before, s.close, rest, hooks);
    assert ([f] + more)[1..] == more;
    Taken(s.own, s.symbols + [Refuse]);
    assert [] + (s.symbols + [Refuse]) == s.symbols + [Refuse];
    SymbolRefused(f.imports, s.symbols);
  }

  // ---------------------------------------------------------------------- walking the list

  /** What is left to do from `k` on: the whole edit of `was` is the list before `k` and the edit of the
      rest. */
  ghost predicate Ahead(was: seq<File>, callbacks: Editor, files: seq<File>, k: nat, ed: Editor, hooks: Hooks)
  {
    k <= |files| && EditAll(was, callbacks, hooks) == Prefixed(files[..k], EditAll(files[k..], ed, hooks))
  }

  lemma AheadStart(was: seq<File>, callbacks: Editor, hooks: Hooks)
    ensures Ahead(was, callbacks, was, 0, callbacks, hooks)
  {
    hide EditAll;
    assert was[0..] == was && was[..0] == [];
    PrefixedNone(EditAll(was, callbacks, hooks));
  }

  lemma AheadInsert(was: seq<File>, callbacks: Editor, files: seq<File>, k: nat, ed: Editor, hooks: Hooks)
    requires Ahead(was, callbacks, files, k, ed, hooks) && hooks.byway && Next(ed).Rename?
    ensures Ahead(was, callbacks, files[..k] + [Byway(Next(ed).name)] + files[k..], k + 1, Asked(ed), hooks)
  {
    hide EditAll;
    var now := files[..k] + [Byway(Next(ed).name)] + files[k..];
    InsertStep(files[k..], ed, hooks);
    PrefixedTwice(files[..k], [Byway(Next(ed).name)], EditAll(files[k..], Asked(ed), hooks));
    assert now[..k + 1] == files[..k] + [Byway(Next(ed).name)] && now[k + 1..] == files[k..];
  }

  lemma AheadRefused(was: seq<File>, callbacks: Editor, files: seq<File>, k: nat, ed: Editor, hooks: Hooks)
    requires Ahead(was, callbacks, files, k, ed, hooks) && hooks.byway && Next(ed) == Refuse
    ensures var e := EditAll(was, callbacks, hooks); !e.ok && e.files == files
  {
    assert files[..k] + files[k..] == files;
  }

  lemma AheadFile(was: seq<File>, callbacks: Editor, files: seq<File>, k: nat, ed: Editor, hooks: Hooks)
    requires Ahead(was, callbacks, files, k, ed, hooks) && k < |files| && (hooks.byway ==> NamesNone(Next(ed)))
    ensures var r := FileAfter(files[k], if hooks.byway then Asked(ed) else ed, hooks);
            && (r.verdict == Kept ==> Ahead(was, callbacks, files[k := r.file], k + 1, r.rest, hooks))
            && (r.verdict == Gone ==> Ahead(was, callbacks, files[..k] + files[k + 1..], k, r.rest, hooks))
            && (r.verdict == Failed ==>
                  var e := EditAll(was, callbacks, hooks); !e.ok && e.files == files[k := r.file])
  {
    hide EditAll, FileAfter;
    var r := FileAfter(files[k], if hooks.byway then Asked(ed) else ed, hooks);
    FileStep(files[k..], ed, hooks);
    assert files[k..][0] == files[k] && files[k..][1..] == files[k + 1..];
    var now, cut := files[k := r.file], files[..k] + files[k + 1..];
    assert now[..k + 1] == files[..k] + [r.file] && now[k + 1..] == files[k + 1..];
    assert cut[..k] == files[..k] && cut[k..] == files[k + 1..];
    PrefixedTwice(files[..k], [r.file], EditAll(files[k + 1..], r.rest, hooks));
    assert now == files[..k] + ([r.file] + files[k + 1..]);
  }

  /** One turn of the loop over the files there are. */
  lemma AheadTurn(was: seq<File>, callbacks: Editor, files: seq<File>, k: nat, ed: Editor, hooks: Hooks)
    requires Ahead(was, callbacks, files, k, ed, hooks) && k < |files|
    ensures hooks.byway && Next(ed) == Refuse ==> var e := EditAll(was, callbacks, hooks); !e.ok && e.files == files
    ensures hooks.byway && Next(ed).Rename? ==>
              Ahead(was, callbacks, files[..k] + [Byway(Next(ed).name)] + files[k..], k + 1, Asked(ed), hooks)
    ensures (hooks.byway ==> NamesNone(Next(ed))) ==>
              var r := FileAfter(files[k], if hooks.byway then Asked(ed) else ed, hooks);
              && (r.verdict == Kept ==> Ahead(was, callbacks, files[k := r.file], k + 1, r.rest, hooks))
              && (r.verdict == Gone ==> Ahead(was, callbacks, files[..k] + files[k + 1..], k, r.rest, hooks))
              && (r.verdict == Failed ==>
                    var e := EditAll(was, callbacks, hooks); !e.ok && e.files == files[k := r.file])
  {
    hide EditAll, FileAfter, Ahead;
    if hooks.byway && Next(ed) == Refuse { AheadRefused(was, callbacks, files, k, ed, hooks); }
    if hooks.byway && Next(ed).Rename? { AheadInsert(was, callbacks, files, k, ed, hooks); }
    if hooks.byway ==> NamesNone(Next(ed)) { AheadFile(was, callbacks, files, k, ed, hooks); }
  }

  lemma AheadEnd(was: seq<File>, callbacks: Editor, files: seq<File>, ed: Editor, hooks: Hooks)
    requires Ahead(was, callbacks, files, |files|, ed, hooks) && !(hooks.byway && Next(ed).Rename?)
    ensures var e := EditAll(was, callbacks, hooks);
            e.ok == !(hooks.byway && Next(ed) == Refuse) && e.files == files
  {
    hide EditAll, Ahead;
    if hooks.byway && Next(ed) == Refuse {
      AheadRefused(was, callbacks, files, |files|, ed, hooks);
    } else {
      AheadDone(was, callbacks, files, ed, hooks);
    }
  }

  lemma AheadDone(was: seq<File>, callbacks: Editor, files: seq<File>, ed: Editor, hooks: Hooks)
    requires Ahead(was, callbacks, files, |files|, ed, hooks) && (hooks.byway ==> NamesNone(Next(ed)))
    ensures var e := EditAll(was, callbacks, hooks); e.ok && e.files == files
  {
    assert files[|files|..] == [] && files[..|files|] == files && files + [] == files;
  }

  /** The symbol callbacks from import `n` on. */
  ghost predicate SymbolsAhead(was: seq<Import>, ed: Editor, edited: seq<Import>, n: nat, rest: Editor)
  {
    n <= |edited|
    && var r := SymbolsAfter(edited[n..], rest); SymbolsAfter(was, ed) == r.(imports := edited[..n] + r.imports)
  }

  lemma SymbolsStart(was: seq<Import>, ed: Editor)
    ensures SymbolsAhead(was, ed, was, 0, ed)
  {
    hide SymbolsAfter;
    assert was[0..] == was && was[..0] == [];
    assert [] + SymbolsAfter(was, ed).imports == SymbolsAfter(was, ed).imports;
  }

  lemma SymbolsStep(was: seq<Import>, ed: Editor, edited: seq<Import>, n: nat, rest: Editor)
    requires SymbolsAhead(was, ed, edited, n, rest) && n < |edited|
    ensures var a := SymbolAnswer(rest, edited[n]);
            if a == Refuse then SymbolsAfter(was, ed) == SymbolsEdited(false, edited, Asked(rest))
            else SymbolsAhead(was, ed, edited[n := Answered(edited[n], a)], n + 1, Asked(rest))
  {
    hide Answered, SymbolAnswer;
    var i := Answered(edited[n], SymbolAnswer(rest, edited[n]));
    var now := edited[n := i];
    assert edited[n..][0] == edited[n] && edited[n..][1..] == edited[n + 1..];
    assert now[..n + 1] == edited[..n] + [i] && now[n + 1..] == edited[n + 1..];
    assert edited[..n] + edited[n..] == edited;
    var tail := SymbolsAfter(edited[n + 1..], Asked(rest)).imports;
    assert edited[..n] + ([i] + tail) == (edited[..n] + [i]) + tail;
  }

  lemma SymbolsDone(was: seq<Import>, ed: Editor, edited: seq<Import>, rest: Editor)
    requires SymbolsAhead(was, ed, edited, |edited|, rest)
    ensures SymbolsAfter(was, ed) == SymbolsEdited(true, edited, rest)
  {
    assert edited[|edited|..] == [] && edited[..|edited|] == edited && edited + [] == edited;
  }
}

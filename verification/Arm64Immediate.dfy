/** Loading a 64-bit constant with MOVZ, MOVN and MOVK (EmitMovImmediate). */
module Arm64Immediate {
  import opened Options
  import opened Arm64Isa
  import opened Arm64Assemble

  function Count(p: Pieces, d: int): int
  {
    (if p.p3 == d then 1 else 0) + (if p.p2 == d then 1 else 0) + (if p.p1 == d then 1 else 0)
    + (if p.p0 == d then 1 else 0)
  }

  function Default(p: Pieces): int { if Count(p, 0xffff) > Count(p, 0) then 0xffff else 0 }

  /** A value of the form 0x0000_0000_ffff_xxxx, written with one MOVN on a W register. */
  predicate NegativeWord(p: Pieces) { p.p3 == 0 && p.p2 == 0 && p.p1 == 0xffff }

  function MovWord(rd: int, p: Pieces, d: int, k: int, first: bool): word
  {
    if !first then AssembleMov(1, 3, rd, p.Get(k), k)
    else if d == 0xffff then AssembleMov(1, 0, rd, 0xffff - p.Get(k), k)
    else AssembleMov(1, 2, rd, p.Get(k), k)
  }

  predicate Written(p: Pieces, d: int, k: int, first: bool) { p.Get(k) != d || (k == 0 && first) }

  /** The words for halfwords `k` down to 0. */
  function MovPieces(rd: int, p: Pieces, d: int, k: int, first: bool): seq<word>
    decreases k + 1
  {
    if k < 0 then []
    else if Written(p, d, k, first) then [MovWord(rd, p, d, k, first)] + MovPieces(rd, p, d, k - 1, false)
    else MovPieces(rd, p, d, k - 1, first)
  }

  function MovWords(rd: int, v: u64): seq<word>
  {
    var p := Split(v);
    if NegativeWord(p) then [AssembleMov(0, 0, rd, 0xffff - p.p0, 0)] else MovPieces(rd, p, Default(p), 3, true)
  }

  /** The words are written behind one another from the destination on. */
  class Emitter {
    var words: seq<word>

    constructor ()
      ensures words == []
    {
      words := [];
    }

    method EmitInstruction(i: word)
      modifies this
      ensures words == old(words) + [i]
    {
      words := words + [i];
    }

    method EmitMovImmediate(rd: int, immediate: u64)
      modifies this
      ensures words == old(words) + MovWords(rd, immediate)
    {
      hide Split, MovWord, Written, MovPieces, AssembleMov, Default;
      var piece := Split(immediate);
      if NegativeWord(piece) {
        EmitInstruction(AssembleMov(0, 0, rd, 0xffff - piece.p0, 0));
      } else {
        var defaultPiece := Default(piece);
        var first := true;
        var pieceNum := 3;
        while pieceNum >= 0
          invariant -1 <= pieceNum <= 3
          invariant words + MovPieces(rd, piece, defaultPiece, pieceNum, first) == old(words) + MovWords(rd, immediate)
        {
          PiecesForm(rd, piece, defaultPiece, pieceNum, first);
          if Written(piece, defaultPiece, pieceNum, first) {
            EmitInstruction(MovWord(rd, piece, defaultPiece, pieceNum, first));
            first := false;
          }
          pieceNum := pieceNum - 1;
        }
        PiecesForm(rd, piece, defaultPiece, pieceNum, first);
      }
    }
  }

  lemma PiecesForm(rd: int, p: Pieces, d: int, k: int, first: bool)
    ensures MovPieces(rd, p, d, k, first) ==
            if k < 0 then []
            else if Written(p, d, k, first) then [MovWord(rd, p, d, k, first)] + MovPieces(rd, p, d, k - 1, false)
            else MovPieces(rd, p, d, k - 1, first)
  {
    hide Written, MovWord;
  }

  // ------------------------------------------------------------------------------- execution

  /** `t` is `s` after `n` words that set register `rd` to `v`. */
  ghost predicate Loaded(s: State, t: State, rd: int, v: int, n: int)
  {
    && t.pc == Wrap(s.pc + 4 * n) && t.sp == s.sp && t.flags == s.flags
    && (forall r :: r != rd ==> Reg(t, r) == Reg(s, r))
    && (rd != 31 ==> Reg(t, rd) == v)
  }

  lemma StepMove(i: word, s: State)
    requires IsMove(i)
    ensures Step(i, s) == Some(Next(WithReg(s, Rd(i), Wrap(Join(Moved(i, Reg(s, Rd(i))))))))
  {
    hide Moved, Join, Reg, WithReg, IsMove, IsB, IsBl, IsBcond, IsCbz, IsTbz, IsBr, IsBlr, IsAdr, IsAdrp, IsAddImm;
    MoveAlone(i);
  }

  /** The encodings of the moves and of the other instructions are apart. */
  lemma MoveAlone(i: word)
    requires IsMove(i)
    ensures !IsB(i) && !IsBl(i) && !IsBcond(i) && !IsCbz(i) && !IsTbz(i)
    ensures !IsBr(i) && !IsBlr(i) && !IsAdr(i) && !IsAdrp(i) && !IsAddImm(i)
  {
    var q := i / 0x80_0000;
    assert q == 0x125 || q == 0x1a5 || q == 0x1e5 || q == 0x25;
  }

  lemma ExecMove(i: word, tail: seq<word>, s: State)
    requires IsMove(i)
    ensures Exec([i] + tail, s) == Exec(tail, Step(i, s).value)
  {
    StepMove(i, s);
    hide Step, IsMove, Moved, Join;
    assert ([i] + tail)[1..] == tail;
  }

  predicate InRange(p: Pieces)
  {
    0 <= p.p0 < 0x1_0000 && 0 <= p.p1 < 0x1_0000 && 0 <= p.p2 < 0x1_0000 && 0 <= p.p3 < 0x1_0000
  }

  lemma SplitJoin(p: Pieces)
    requires InRange(p)
    ensures 0 <= Join(p) < TWO64 && Split(Join(p)) == p
  {
    var v := Join(p);
    assert v / 0x1_0000 == p.p1 + 0x1_0000 * p.p2 + 0x1_0000_0000 * p.p3;
    assert v / 0x1_0000_0000 == p.p2 + 0x1_0000 * p.p3;
  }

  lemma JoinSplit(v: u64)
    ensures InRange(Split(v)) && Join(Split(v)) == v
  {
    var a := v / 0x1_0000;
    var b := a / 0x1_0000;
    var c := b / 0x1_0000;
    assert b == v / 0x1_0000_0000 && c == v / 0x1_0000_0000_0000;
  }

  /** Halfwords above `k` as in `p`, the others `d`. */
  function Partial(p: Pieces, d: int, k: int): Pieces
  {
    Pieces(if 0 > k then p.p0 else d, if 1 > k then p.p1 else d, if 2 > k then p.p2 else d, if 3 > k then p.p3 else d)
  }

  /** One word of the sequence: the halfwords from `k` on are in place after it. */
  lemma WordLoads(rd: int, p: Pieces, d: int, k: int, first: bool, s: State) returns (t: State)
    requires 0 <= rd < 32 && InRange(p) && (d == 0 || d == 0xffff) && 0 <= k <= 3
    requires if first then Partial(p, d, k) == All(d) else rd != 31 ==> Reg(s, rd) == Join(Partial(p, d, k))
    ensures IsMove(MovWord(rd, p, d, k, first)) && Step(MovWord(rd, p, d, k, first), s) == Some(t)
    ensures Loaded(s, t, rd, Join(Partial(p, d, k - 1)), 1)
  {
    hide Step, AssembleMov, Rd, Imm16, Halfword, IsMovz64, IsMovn64, IsMovk64, IsMovn32, Split, Join;
    var w := MovWord(rd, p, d, k, first);
    var next := Partial(p, d, k - 1);
    MovFields(1, if !first then 3 else if d == 0xffff then 0 else 2, rd, if first && d == 0xffff then
                0xffff - p.Get(k) else p.Get(k), k);
    StepMove(w, s);
    SplitJoin(Partial(p, d, k));
    SplitJoin(next);
    if first || rd != 31 { assert Moved(w, Reg(s, rd)) == next; }
    t := Step(w, s).value;
  }

  lemma {:induction false} PiecesLoad(rd: int, p: Pieces, d: int, k: int, first: bool, tail: seq<word>, s: State)
    returns (t: State)
    requires 0 <= rd < 32 && InRange(p) && (d == 0 || d == 0xffff) && -1 <= k <= 3 && (first ==> k >= 0)
    requires if first then Partial(p, d, k) == All(d) else rd != 31 ==> Reg(s, rd) == Join(Partial(p, d, k))
    ensures Exec(MovPieces(rd, p, d, k, first) + tail, s) == Exec(tail, t)
    ensures Loaded(s, t, rd, Join(p), |MovPieces(rd, p, d, k, first)|)
    decreases k + 1
  {
    hide Step, Exec, MovWord, Join, IsMove, InRange, MovPieces, Written, Loaded, Partial, Wrap, All;
    PiecesForm(rd, p, d, k, first);
    if k < 0 {
      t := s;
      assert [] + tail == tail;
      NothingLoaded(s, rd, p, d);
    } else if Written(p, d, k, first) {
      var w := MovWord(rd, p, d, k, first);
      var u := WordLoads(rd, p, d, k, first, s);
      var rest := MovPieces(rd, p, d, k - 1, false);
      LoadedReg(s, u, rd, Join(Partial(p, d, k - 1)), 1);
      ExecMove(w, rest + tail, s);
      t := PiecesLoad(rd, p, d, k - 1, false, tail, u);
      LoadedTrans(s, u, t, rd, Join(Partial(p, d, k - 1)), Join(p), |rest|);
      assert ([w] + rest) + tail == [w] + (rest + tail);
    } else {
      Unwritten(p, d, k, first);
      t := PiecesLoad(rd, p, d, k - 1, first, tail, s);
    }
  }

  lemma NothingLoaded(s: State, rd: int, p: Pieces, d: int)
    ensures Partial(p, d, -1) == p && ((rd != 31 ==> Reg(s, rd) == Join(p)) ==> Loaded(s, s, rd, Join(p), 0))
  {
  }

  lemma LoadedReg(s: State, t: State, rd: int, v: int, n: int)
    requires Loaded(s, t, rd, v, n)
    ensures rd != 31 ==> Reg(t, rd) == v
  {
  }

  lemma LoadedTrans(s: State, u: State, t: State, rd: int, v: int, w: int, n: int)
    requires Loaded(s, u, rd, v, 1) && Loaded(u, t, rd, w, n)
    ensures Loaded(s, t, rd, w, n + 1)
  {
  }

  lemma Unwritten(p: Pieces, d: int, k: int, first: bool)
    requires !Written(p, d, k, first) && 0 <= k <= 3
    ensures Partial(p, d, k - 1) == Partial(p, d, k) && (first ==> k >= 1)
  {
  }

  lemma NegativeLoads(rd: int, p: Pieces, s: State) returns (t: State)
    requires 0 <= rd < 32 && InRange(p) && NegativeWord(p)
    ensures IsMove(AssembleMov(0, 0, rd, 0xffff - p.p0, 0))
            && Step(AssembleMov(0, 0, rd, 0xffff - p.p0, 0), s) == Some(t)
    ensures Loaded(s, t, rd, Join(p), 1)
  {
    hide Step, AssembleMov, Rd, Imm16, Halfword, IsMovn32, Join;
    var w := AssembleMov(0, 0, rd, 0xffff - p.p0, 0);
    MovFields(0, 0, rd, 0xffff - p.p0, 0);
    StepMove(w, s);
    SplitJoin(p);
    NarrowMove(w);
    assert Moved(w, Reg(s, rd)) == p;
    t := Step(w, s).value;
  }

  lemma NarrowMove(w: word)
    ensures IsMovn32(w) ==> !IsMovz64(w) && !IsMovn64(w) && !IsMovk64(w)
  {
  }

  /** Executing what EmitMovImmediate emits leaves exactly the constant in the register, whatever
      follows it. */
  lemma MovLoads(rd: int, v: u64, tail: seq<word>, s: State) returns (t: State)
    requires 0 <= rd < 32
    ensures Exec(MovWords(rd, v) + tail, s) == Exec(tail, t)
    ensures Loaded(s, t, rd, v, |MovWords(rd, v)|)
  {
    hide Step, Exec, Split, Join, MovPieces, IsMove, AssembleMov, InRange;
    var p := Split(v);
    JoinSplit(v);
    if NegativeWord(p) {
      t := NegativeLoads(rd, p, s);
      ExecMove(AssembleMov(0, 0, rd, 0xffff - p.p0, 0), tail, s);
    } else {
      t := PiecesLoad(rd, p, Default(p), 3, true, tail, s);
    }
  }

  // ---------------------------------------------------------------------------------- length

  lemma PiecesLength(rd: int, p: Pieces, d: int)
    ensures |MovPieces(rd, p, d, 3, true)| == if Count(p, d) == 4 then 1 else 4 - Count(p, d)
  {
    hide MovWord;
    assert |MovPieces(rd, p, d, -1, true)| == |MovPieces(rd, p, d, -1, false)| == 0;
    assert |MovPieces(rd, p, d, 0, false)| == if p.p0 == d then 0 else 1;
    assert |MovPieces(rd, p, d, 0, true)| == 1;
    assert |MovPieces(rd, p, d, 1, false)| == (if p.p0 == d then 0 else 1) + (if p.p1 == d then 0 else 1);
    assert |MovPieces(rd, p, d, 1, true)| == if p.p1 == d then 1 else 1 + |MovPieces(rd, p, d, 0, false)|;
    assert |MovPieces(rd, p, d, 2, false)| == |MovPieces(rd, p, d, 1, false)| + (if p.p2 == d then 0 else 1);
    assert |MovPieces(rd, p, d, 2, true)| == if p.p2 == d then |MovPieces(rd, p, d, 1, true)|
                                             else 1 + |MovPieces(rd, p, d, 1, false)|;
  }

  /** One to four instructions. */
  lemma MovLength(rd: int, v: u64)
    ensures 1 <= |MovWords(rd, v)| <= 4
  {
    hide MovPieces, Split, AssembleMov;
    PiecesLength(rd, Split(v), Default(Split(v)));
  }

  /** One MOVZ or MOVN followed by MOVKs, all on X registers and all to `rd`. */
  ghost predicate WideMoves(words: seq<word>, rd: int)
  {
    && |words| >= 1 && (IsMovz64(words[0]) || IsMovn64(words[0]))
    && (forall i :: 1 <= i < |words| ==> IsMovk64(words[i]))
    && (forall i :: 0 <= i < |words| ==> Rd(words[i]) == rd)
  }

  function Differing(p: Pieces, d: int): int { 4 - Count(p, d) }

  /** Each MOVK changes one halfword. */
  lemma {:induction false} KeepsLoad(words: seq<word>, rd: int, s: State, d: int) returns (t: State)
    requires rd != 31 && forall i :: 0 <= i < |words| ==> IsMovk64(words[i]) && Rd(words[i]) == rd
    ensures Exec(words, s) == Some(t) && Differing(Split(Reg(t, rd)), d) <= Differing(Split(Reg(s, rd)), d) + |words|
    decreases |words|
  {
    hide Step, IsMovk64, Rd, Split, Join;
    if words == [] {
      t := s;
    } else {
      assert IsMovk64(words[0]) && Rd(words[0]) == rd;
      var u := KeepStep(words[0], rd, s, d);
      assert words == [words[0]] + words[1..];
      ExecMove(words[0], words[1..], s);
      t := KeepsLoad(words[1..], rd, u, d);
    }
  }

  lemma KeepStep(i: word, rd: int, s: State, d: int) returns (t: State)
    requires rd != 31 && IsMovk64(i) && Rd(i) == rd
    ensures Step(i, s) == Some(t) && IsMove(i) && Differing(Split(Reg(t, rd)), d) <= Differing(Split(Reg(s, rd)), d) + 1
  {
    hide Step, Imm16, Halfword, Rd, Split, Join, IsMovz64, IsMovn64, IsMovk64, IsMovn32;
    StepMove(i, s);
    JoinSplit(Reg(s, rd));
    KeepFields(i);
    SplitJoin(Moved(i, Reg(s, rd)));
    t := Step(i, s).value;
  }

  lemma KeepFields(i: word)
    ensures 0 <= Imm16(i) < 0x1_0000 && 0 <= Halfword(i) < 4
    ensures IsMovk64(i) ==> !IsMovz64(i) && !IsMovn64(i)
    ensures IsMovn64(i) ==> !IsMovz64(i)
  {
  }

  lemma FirstStep(i: word, rd: int, s: State) returns (t: State)
    requires rd != 31 && (IsMovz64(i) || IsMovn64(i)) && Rd(i) == rd
    ensures Step(i, s) == Some(t) && IsMove(i)
    ensures Differing(Split(Reg(t, rd)), if IsMovz64(i) then 0 else 0xffff) <= 1
  {
    hide Step, Imm16, Halfword, Rd, Split, Join, IsMovz64, IsMovn64, IsMovk64, IsMovn32;
    StepMove(i, s);
    KeepFields(i);
    SplitJoin(Moved(i, Reg(s, rd)));
    t := Step(i, s).value;
  }

  /** No sequence of one 64-bit MOVZ or MOVN and MOVKs that loads the constant is shorter than what is
      emitted; its one special case takes a single instruction. */
  lemma MovMinimal(words: seq<word>, rd: int, s: State, v: u64)
    requires WideMoves(words, rd) && 0 <= rd < 31 && Exec(words, s).Some? && Reg(Exec(words, s).value, rd) == v
    ensures |MovWords(rd, v)| <= |words|
  {
    hide Step, Exec, IsMovk64, IsMovz64, IsMovn64, Rd, Split, Join, MovPieces, AssembleMov;
    var i := words[0];
    var d := if IsMovz64(i) then 0 else 0xffff;
    assert Rd(i) == rd;
    var u := FirstStep(i, rd, s);
    assert words == [i] + words[1..];
    ExecMove(i, words[1..], s);
    var t := KeepsLoad(words[1..], rd, u, d);
    var p := Split(v);
    assert Differing(p, d) <= |words|;
    PiecesLength(rd, p, Default(p));
    assert Count(p, Default(p)) >= Count(p, d);
  }
}

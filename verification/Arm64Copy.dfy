/** What a copied A64 instruction does at its new address, whatever the instruction: the copier's
    choice of routine measured against the reference semantics. */
module Arm64Copy {
  import opened Options
  import opened Arm64Isa
  import opened Arm64Assemble
  import opened Arm64Immediate
  import opened Arm64Relocation

  /** The copy ends in an indirect jump that the instruction did not have, through register 17. */
  predicate Scratch(words: seq<word>)
  {
    |words| > 1 && var last := words[|words| - 1]; (IsBr(last) || IsBlr(last)) && Rn(last) == 17
  }

  /** Running `words` at `dst` does what the instruction `i` does at `src`: control goes where it went,
      or on behind the words; the link register points behind the words; every other register, the
      stack pointer and the flags are the same, but for the scratch register of a far branch. */
  ghost predicate MeansSame(i: word, words: seq<word>, src: u64, dst: u64, s: State)
    requires Step(i, s.(pc := src)).Some?
  {
    var t := Step(i, s.(pc := src)).value;
    match Exec(words, s.(pc := dst))
    case None => false
    case Some(u) =>
      && u.pc == (if Branches(i, s) then t.pc else Wrap(dst + 4 * |words|))
      && u.sp == t.sp && u.flags == t.flags
      && (forall r :: !(r == 17 && Scratch(words)) && !(r == 30 && Links(i)) ==> Reg(u, r) == Reg(t, r))
      && (Links(i) ==> Reg(u, 30) == Wrap(dst + 4 * |words|))
  }

  ghost predicate MeansSameAlways(i: word, words: seq<word>, src: u64, dst: u64)
  {
    forall s: State :: Step(i, s.(pc := src)).Some? ==> MeansSame(i, words, src, dst, s)
  }

  /** The guard under which a copy keeps its meaning: no conditional branch that always holds is
      inverted, no far branch tests the register it loads, and no ADR becomes ADRP and a 32-bit ADD for
      register 31 or an address beyond 4 GB. */
  predicate Copyable(i: word, src: u64, dst: u64)
  {
    && (IsBcond(i) && i % 16 >= 14 ==> BccForm(i, src, dst).Near?)
    && (IsCbz(i) && Rd(i) == 17 ==> !BccForm(i, src, dst).Far?)
    && (IsTbz(i) && Rd(i) == 17 ==> !TbzForm(i, src, dst).Far?)
    && (IsAdr(i) && AdrForm(i, src, dst).Pair? ==> Rd(i) != 31 && AdrTarget(i, src) < TWO32)
  }

  // ---------------------------------------------------------------------- the encodings are apart

  lemma Apart(i: word)
    ensures IsAdr(i) || IsAdrp(i) ==>
              !IsB(i) && !IsBl(i) && !IsBcond(i) && !IsCbz(i) && !IsTbz(i) && !IsBr(i) && !IsBlr(i)
    ensures IsCbz(i) ==> !IsB(i) && !IsBl(i) && !IsBcond(i)
    ensures IsTbz(i) ==> !IsB(i) && !IsBl(i) && !IsBcond(i) && !IsCbz(i)
    ensures IsAdr(i) ==> !IsAdrp(i)
    ensures IsBcond(i) || IsB(i) ==> !IsBl(i)
    ensures IsBcond(i) ==> !IsB(i)
    ensures IsBl(i) ==> Bit31(i) == 1
    ensures IsB(i) ==> Bit31(i) == 0
  {
    hide IsCbz, IsTbz;
    Opcode5(i);
    Opcode6(i);
  }

  lemma RegisterBranches(i: word)
    ensures IsBr(i) || IsBlr(i) ==> !PcRelative(i)
    ensures IsBr(i) ==> !IsBlr(i)
  {
    hide IsB, IsBl, IsBcond, IsCbz, IsTbz, IsAdr, IsAdrp, IsBr, IsBlr;
    Opcode5(i);
    BrApart(i);
  }

  lemma BrApart(i: word)
    ensures IsBr(i) || IsBlr(i) ==> !IsB(i) && !IsBl(i) && !IsBcond(i) && !IsCbz(i) && !IsTbz(i)
    ensures IsBr(i) ==> !IsBlr(i)
    ensures IsBr(i) || IsBlr(i) ==> !IsAdr(i) && !IsAdrp(i)
  {
    var q := i / 0x400;
    assert i / 0x200_0000 == q / 0x8000 && i / 0x400_0000 == q / 0x1_0000 && i / 0x100_0000 == q / 0x4000;
  }

  /** An instruction that does not transfer control goes on behind itself. */
  lemma FallsThrough(i: word, s: State)
    requires Step(i, s).Some? && !Branches(i, s)
    ensures Step(i, s).value.pc == Wrap(s.pc + 4)
  {
    hide Wrap, IsB, IsBl, IsBcond, IsCbz, IsTbz, IsAdr, IsAdrp, IsBr, IsBlr, IsAddImm, IsMove, Moved, Join, Rn, Rd,
      BcondTaken, CbzTaken, TbzTaken;
  }

  // ---------------------------------------------------------------------- verbatim copies

  /** Nothing that stands free of its address is rewritten. */
  lemma Verbatim(i: word, src: u64, dst: u64)
    requires !PcRelative(i)
    ensures CopiedWords(i, src, dst) == [i]
  {
    hide IsB, IsBl, IsBcond, IsCbz, IsTbz, IsAdr, IsAdrp, AdrWords, BccWords, BranchWords, CbzWords, TbzWords;
  }

  /** Elsewhere such an instruction does the same: it goes on behind itself or jumps to the same address,
      and only a link shows where it stands. */
  lemma PositionFree(i: word, src: u64, dst: u64, s: State)
    requires !PcRelative(i) && Step(i, s.(pc := src)).Some?
    ensures Step(i, s.(pc := dst)).Some?
    ensures var t, u := Step(i, s.(pc := src)).value, Step(i, s.(pc := dst)).value;
            && (if Branches(i, s) then u.pc == t.pc else t.pc == Wrap(src + 4) && u.pc == Wrap(dst + 4))
            && u.sp == t.sp && u.flags == t.flags
            && (forall r :: r != 30 || !Links(i) ==> Reg(u, r) == Reg(t, r))
            && (Links(i) ==> Reg(u, 30) == Wrap(dst + 4))
  {
    hide Wrap, IsB, IsBl, IsBcond, IsCbz, IsTbz, IsAdr, IsAdrp, IsBr, IsBlr, IsAddImm, IsMove, Moved, Join, Rn, Rd;
    var a, b := s.(pc := src), s.(pc := dst);
    assert forall r :: Reg(a, r) == Reg(b, r);
    RegisterBranches(i);
    if IsBr(i) {
    } else if IsBlr(i) {
    } else if IsAddImm(i) {
      assert Step(i, a).value.x == Step(i, b).value.x;
    } else {
      assert Step(i, a).value.x == Step(i, b).value.x;
    }
  }

  lemma VerbatimMeans(i: word, src: u64, dst: u64, s: State)
    requires !PcRelative(i) && Step(i, s.(pc := src)).Some?
    ensures MeansSame(i, [i], src, dst, s)
  {
    hide Wrap, Step, Exec, Links, Branches, PcRelative;
    PositionFree(i, src, dst, s);
    ExecOne(i, s.(pc := dst));
    DstWrap(dst);
  }

  // ---------------------------------------------------------------------- conditional branches

  lemma CondScratch(form: Form, near: word, inverted: word, target: u64, dst: u64)
    ensures Scratch(CondWords(form, near, inverted, target, dst)) <==> form.Far?
  {
    hide MovWords, Delta, AssembleBr, AssembleBranch, IsBr, IsBlr, IsB, IsBl, Rn;
    var delta := Delta(target, Wrap(dst + 4));
    BranchFields(false, delta);
    BrFields(17, false);
    RegisterBranches(AssembleBranch(false, delta));
    MovLength(17, target);
  }

  lemma KeptMeans(i: word, words: seq<word>, s: State, src: u64, dst: u64, taken: bool, target: u64)
    requires Step(i, s.(pc := src)) == Some(Goto(s.(pc := src), taken, target))
    requires Branches(i, s) == taken && !Links(i)
    ensures MeansSame(i, words, src, dst, s) <==> Kept(words, s, dst, taken, target, Scratch(words))
  {
    hide Step, Exec, Wrap, Branches, Links, Scratch;
    var t := Goto(s.(pc := src), taken, target);
    assert forall r :: Reg(t, r) == Reg(s, r);
  }

  lemma BccMeans(i: word, src: u64, dst: u64, s: State)
    requires IsBcond(i) && src % 4 == 0 && dst % 4 == 0
    ensures Step(i, s.(pc := src)).Some?
    ensures MeansSame(i, BccWords(i, src, dst), src, dst, s) <==> (i % 16 >= 14 ==> BccForm(i, src, dst).Near?)
  {
    hide Step, Exec, MeansSame, Kept, BccTarget, BccForm, IsBcond, IsB, IsBl, IsBr, IsBlr, IsCbz, IsTbz, IsAdr, IsAdrp,
      BcondTaken, CbzTaken, TbzTaken, CondWords, Scratch;
    var target, form := BccTarget(i, src), BccForm(i, src, dst);
    Apart(i);
    RegisterBranches(i);
    BccKept(i, src, dst, s);
    CondScratch(form, AssembleBcc(i % 16, Delta(target, dst)), AssembleBcc(Flip(i % 16), 8), target, dst);
    KeptMeans(i, BccWords(i, src, dst), s, src, dst, BcondTaken(i, s), target);
  }

  lemma CbzStepAt(i: word, src: u64, s: State)
    requires IsCbz(i) && src % 4 == 0
    ensures Step(i, s.(pc := src)) == Some(Goto(s.(pc := src), CbzTaken(i, s), BccTarget(i, src)))
    ensures Branches(i, s) == CbzTaken(i, s) && !Links(i)
  {
    hide Step, IsBcond, IsB, IsBl, IsBr, IsBlr, IsCbz, IsTbz, IsAdr, IsAdrp, BcondTaken, TbzTaken, BccTarget, Ext19,
      Imm19, Wrap;
    Apart(i);
    RegisterBranches(i);
    TargetAligned(i, src, src);
    StepCbz(i, s.(pc := src));
    assert Reg(s.(pc := src), Rd(i)) == Reg(s, Rd(i));
  }

  lemma CbzMeans(i: word, src: u64, dst: u64, s: State)
    requires IsCbz(i) && src % 4 == 0 && dst % 4 == 0
    ensures Step(i, s.(pc := src)).Some?
    ensures MeansSame(i, CbzWords(i, src, dst), src, dst, s) <==> CbzKeptIn(i, src, dst, s)
  {
    hide Step, Exec, MeansSame, Kept, BccTarget, BccForm, IsCbz, CbzTaken, CondWords, Scratch, Branches, Links;
    var target, form := BccTarget(i, src), BccForm(i, src, dst);
    CbzStepAt(i, src, s);
    CondScratch(form, AssembleCbz(Bit31(i), Bit24(i), Rd(i), Delta(target, dst)),
                AssembleCbz(Bit31(i), Flip(Bit24(i)), Rd(i), 8), target, dst);
    KeptMeans(i, CbzWords(i, src, dst), s, src, dst, CbzTaken(i, s), target);
  }

  lemma TbzStepAt(i: word, src: u64, s: State)
    requires IsTbz(i) && src % 4 == 0
    ensures Step(i, s.(pc := src)) == Some(Goto(s.(pc := src), TbzTaken(i, s), TbzTarget(i, src)))
    ensures Branches(i, s) == TbzTaken(i, s) && !Links(i)
  {
    hide Step, IsBcond, IsB, IsBl, IsBr, IsBlr, IsCbz, IsTbz, IsAdr, IsAdrp, BcondTaken, CbzTaken, TbzTarget, Ext14,
      Imm14, Wrap, BitOf;
    Apart(i);
    RegisterBranches(i);
    TargetAligned(i, src, src);
    StepTbz(i, s.(pc := src));
    assert Reg(s.(pc := src), Rd(i)) == Reg(s, Rd(i));
  }

  lemma TbzMeans(i: word, src: u64, dst: u64, s: State)
    requires IsTbz(i) && src % 4 == 0 && dst % 4 == 0
    ensures Step(i, s.(pc := src)).Some?
    ensures MeansSame(i, TbzWords(i, src, dst), src, dst, s) <==> TbzKeptIn(i, src, dst, s)
  {
    hide Step, Exec, MeansSame, Kept, TbzTarget, TbzForm, IsTbz, TbzTaken, CondWords, Scratch, Branches, Links;
    var target, form := TbzTarget(i, src), TbzForm(i, src, dst);
    TbzStepAt(i, src, s);
    CondScratch(form, AssembleTbz(Bit31(i), Bit24(i), Rd(i), Bits19(i), Delta(target, dst)),
                AssembleTbz(Bit31(i), Flip(Bit24(i)), Rd(i), Bits19(i), 8), target, dst);
    KeptMeans(i, TbzWords(i, src, dst), s, src, dst, TbzTaken(i, s), target);
  }

  // ---------------------------------------------------------------------- B, BL, ADR and ADRP

  lemma BranchScratch(i: word, src: u64, dst: u64, link: bool)
    ensures Scratch(BranchWords(i, src, dst, link)) <==> !BranchNear(i, src, dst)
  {
    hide MovWords, AssembleBr, AssembleBranch, IsBr, IsBlr, Rn, BranchTarget, Delta;
    BrFields(17, link);
    MovLength(17, BranchTarget(i, src));
  }

  lemma BranchMeans(i: word, src: u64, dst: u64, link: bool, s: State)
    requires (if link then IsBl(i) else IsB(i)) && src % 4 == 0 && dst % 4 == 0
    ensures Step(i, s.(pc := src)).Some? && MeansSame(i, BranchWords(i, src, dst, link), src, dst, s)
  {
    hide Step, Exec, BranchWords, BranchNear, BranchTarget, IsB, IsBl, IsBr, IsBlr, Scratch, IsBcond, IsCbz, IsTbz,
      IsAdr, IsAdrp, Wrap, Ext26, Imm26;
    var u := BranchKept(i, src, dst, link, s);
    BranchScratch(i, src, dst, link);
    Apart(i);
    RegisterBranches(i);
    StepBranch(i, s.(pc := src));
    var t := Step(i, s.(pc := src)).value;
    assert forall r :: r != 30 || !link ==> Reg(t, r) == Reg(s, r);
  }

  lemma AdrScratch(i: word, src: u64, dst: u64)
    ensures !Scratch(AdrWords(i, src, dst))
  {
    hide Delta, PageDelta, AssembleAdd32, AssembleAdr, AdrTarget, AdrForm, IsBr, IsBlr, IsAddImm, Rn, MovWords, Rd;
    AddFields(Rd(i), Rd(i), AdrTarget(i, src) % 0x1000);
    AddApart(AssembleAdd32(Rd(i), Rd(i), AdrTarget(i, src) % 0x1000));
    MovesApart(Rd(i), AdrTarget(i, src));
  }

  lemma AddApart(i: word)
    requires IsAddImm(i)
    ensures !IsBr(i) && !IsBlr(i)
  {
    hide IsBr, IsBlr;
    Opcode5(i);
  }

  lemma MoveApart(i: word)
    requires IsMove(i)
    ensures !IsBr(i) && !IsBlr(i)
  {
    hide IsBr, IsBlr, IsMove;
    MoveAlone(i);
  }

  lemma PieceMoves(rd: int, p: Pieces, d: int, k: int, first: bool)
    ensures IsMove(MovWord(rd, p, d, k, first))
  {
    hide AssembleMov, IsMovz64, IsMovn64, IsMovk64, IsMovn32;
    var v := if first && d == 0xffff then 0xffff - p.Get(k) else p.Get(k);
    MovFields(1, if !first then 3 else if d == 0xffff then 0 else 2, rd, v, k);
  }

  lemma {:induction false} PiecesMove(rd: int, p: Pieces, d: int, k: int, first: bool)
    ensures var words := MovPieces(rd, p, d, k, first); forall j :: 0 <= j < |words| ==> IsMove(words[j])
    decreases k + 1
  {
    hide MovPieces, MovWord, Written, IsMove;
    PiecesForm(rd, p, d, k, first);
    if k >= 0 {
      PieceMoves(rd, p, d, k, first);
      PiecesMove(rd, p, d, k - 1, false);
      PiecesMove(rd, p, d, k - 1, first);
    }
  }

  lemma MovesApart(rd: int, v: u64)
    ensures !Scratch(MovWords(rd, v))
  {
    hide MovPieces, Scratch, AssembleMov, Default;
    var p := Split(v);
    PiecesMove(rd, p, Default(p), 3, true);
    if NegativeWord(p) {
      OneWord(MovWords(rd, v));
    } else {
      assert MovWords(rd, v) == MovPieces(rd, p, Default(p), 3, true);
      NoBranches(MovPieces(rd, p, Default(p), 3, true));
    }
  }

  lemma OneWord(words: seq<word>)
    requires |words| == 1
    ensures !Scratch(words)
  {
  }

  lemma NoBranches(words: seq<word>)
    requires forall j :: 0 <= j < |words| ==> IsMove(words[j])
    ensures !Scratch(words)
  {
    hide IsMove, IsBr, IsBlr, Rn;
    if |words| > 0 { MoveApart(words[|words| - 1]); }
  }

  lemma AdrMeans(i: word, src: u64, dst: u64, s: State)
    requires IsAdr(i) || IsAdrp(i)
    ensures Step(i, s.(pc := src)).Some?
    ensures MeansSame(i, AdrWords(i, src, dst), src, dst, s)
       <==> Computes(AdrWords(i, src, dst), s, dst, Rd(i), AdrTarget(i, src))
  {
    hide Step, Exec, AdrWords, AdrTarget, IsB, IsBl, IsBcond, IsCbz, IsTbz, IsBr, IsBlr, IsAdr, IsAdrp, Scratch, Wrap,
      Rd;
    Apart(i);
    AdrRange(i);
    AdrMeaning(i, src, s);
    AdrScratch(i, src, dst);
    var t := Step(i, s.(pc := src)).value;
    var start := s.(pc := dst);
    assert forall r :: Reg(start, r) == Reg(s, r);
    assert forall r :: Reg(t, r) == if r == Rd(i) && r != 31 then AdrTarget(i, src) else Reg(s, r);
  }

  // ---------------------------------------------------------------------- every instruction

  /** Copying an instruction keeps what it does, in every state, exactly when it is copyable. */
  lemma CopyMeans(i: word, src: u64, dst: u64)
    requires src % 4 == 0 && dst % 4 == 0
    ensures MeansSameAlways(i, CopiedWords(i, src, dst), src, dst) <==> Copyable(i, src, dst)
  {
    hide Step, Exec, MeansSame, IsB, IsBl, IsBcond, IsCbz, IsTbz, IsAdr, IsAdrp, AdrWords, BccWords, BranchWords,
      CbzWords, TbzWords, AdrForm, BccForm, TbzForm, AdrTarget, Rd, Bit31, CbzKeptIn, TbzKeptIn, Computes;
    Apart(i);
    if !PcRelative(i) {
      Verbatim(i, src, dst);
      forall s: State | Step(i, s.(pc := src)).Some? ensures MeansSame(i, [i], src, dst, s) {
        VerbatimMeans(i, src, dst, s);
      }
    } else if IsAdr(i) || IsAdrp(i) {
      AdrAlways(i, src, dst);
    } else if IsBcond(i) {
      BccAlways(i, src, dst);
    } else if IsB(i) || IsBl(i) {
      forall s: State ensures Step(i, s.(pc := src)).Some?
                              && MeansSame(i, BranchWords(i, src, dst, IsBl(i)), src, dst, s)
      {
        BranchMeans(i, src, dst, IsBl(i), s);
      }
    } else if IsCbz(i) {
      CbzAlways(i, src, dst);
    } else {
      TbzAlways(i, src, dst);
    }
  }

  lemma AdrAlways(i: word, src: u64, dst: u64)
    requires IsAdr(i) || IsAdrp(i)
    ensures MeansSameAlways(i, AdrWords(i, src, dst), src, dst)
       <==> (IsAdr(i) && AdrForm(i, src, dst).Pair? ==> Rd(i) != 31 && AdrTarget(i, src) < TWO32)
  {
    hide Step, MeansSame, Computes, AdrWords, AdrTarget, Rd, IsAdr, IsAdrp, PageDelta, Delta;
    AdrRange(i);
    AdrKeptAlways(i, src, dst);
    forall s: State
      ensures Step(i, s.(pc := src)).Some?
              && (MeansSame(i, AdrWords(i, src, dst), src, dst, s)
                  <==> Computes(AdrWords(i, src, dst), s, dst, Rd(i), AdrTarget(i, src)))
    {
      AdrMeans(i, src, dst, s);
    }
  }

  lemma BccAlways(i: word, src: u64, dst: u64)
    requires IsBcond(i) && src % 4 == 0 && dst % 4 == 0
    ensures MeansSameAlways(i, BccWords(i, src, dst), src, dst)
       <==> (i % 16 >= 14 ==> BccForm(i, src, dst).Near?)
  {
    hide Step, MeansSame, BccWords, IsBcond, BccForm;
    forall s: State
      ensures Step(i, s.(pc := src)).Some?
              && (MeansSame(i, BccWords(i, src, dst), src, dst, s) <==> (i % 16 >= 14 ==> BccForm(i, src, dst).Near?))
    {
      BccMeans(i, src, dst, s);
    }
    assert Step(i, NO_STATE.(pc := src)).Some?;
  }

  lemma CbzAlways(i: word, src: u64, dst: u64)
    requires IsCbz(i) && src % 4 == 0 && dst % 4 == 0
    ensures MeansSameAlways(i, CbzWords(i, src, dst), src, dst) <==> !(BccForm(i, src, dst).Far? && Rd(i) == 17)
  {
    hide Step, MeansSame, CbzWords, CbzKeptIn, IsCbz, BccForm, Rd;
    CbzKept(i, src, dst);
    forall s: State
      ensures Step(i, s.(pc := src)).Some?
              && (MeansSame(i, CbzWords(i, src, dst), src, dst, s) <==> CbzKeptIn(i, src, dst, s))
    {
      CbzMeans(i, src, dst, s);
    }
  }

  lemma TbzAlways(i: word, src: u64, dst: u64)
    requires IsTbz(i) && src % 4 == 0 && dst % 4 == 0
    ensures MeansSameAlways(i, TbzWords(i, src, dst), src, dst) <==> !(TbzForm(i, src, dst).Far? && Rd(i) == 17)
  {
    hide Step, MeansSame, TbzWords, TbzKeptIn, IsTbz, TbzForm, Rd;
    TbzKept(i, src, dst);
    forall s: State
      ensures Step(i, s.(pc := src)).Some?
              && (MeansSame(i, TbzWords(i, src, dst), src, dst, s) <==> TbzKeptIn(i, src, dst, s))
    {
      TbzMeans(i, src, dst, s);
    }
  }
}

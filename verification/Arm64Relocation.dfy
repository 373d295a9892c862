/** Copying A64 branches and address computations to another address (class CDetourDis, ARM64), and
    what that keeps of their meaning. */
module Arm64Relocation {
  import opened Options
  import opened Arm64Isa
  import opened Arm64Assemble
  import opened Arm64Immediate

  /** A difference of pointers as LONG64. */
  function Signed64(v: int): int { var w := v % TWO64; if w < 0x8000_0000_0000_0000 then w else w - TWO64 }

  function Delta(target: u64, dst: u64): int { Signed64(target - dst) }

  predicate Within(delta: int, reach: int) { -reach <= delta < reach }

  /** Condition and Nz are inverted by flipping their lowest bit. */
  function Flip(v: int): int { if v % 2 == 0 then v + 1 else v - 1 }

  datatype Form = Near | Pair | Far

  function FormOf(target: u64, dst: u64, reach: int): Form
  {
    if Within(Delta(target, dst), reach) then Near
    else if Within(Delta(target, Wrap(dst + 4)), 0x800_0000) then Pair
    else Far
  }

  /** One direct branch; an inverted branch over a long one; or the same over an indirect one. */
  function CondWords(form: Form, near: word, inverted: word, target: u64, dst: u64): seq<word>
  {
    match form
    case Near => [near]
    case Pair => [inverted, AssembleBranch(false, Delta(target, Wrap(dst + 4)))]
    case Far => MovWords(17, target) + [inverted, AssembleBr(17, false)]
  }

  function BccTarget(i: word, src: u64): u64 { Wrap(src + Bcc19Imm(i)) }

  function BranchTarget(i: word, src: u64): u64 { Wrap(src + Branch26Imm(i)) }

  function TbzTarget(i: word, src: u64): u64 { Wrap(src + Tbz14Imm(i)) }

  function BccForm(i: word, src: u64, dst: u64): Form { FormOf(BccTarget(i, src), dst, 0x10_0000) }

  function TbzForm(i: word, src: u64, dst: u64): Form { FormOf(TbzTarget(i, src), dst, 0x2000) }

  function BccWords(i: word, src: u64, dst: u64): seq<word>
  {
    var target := BccTarget(i, src);
    CondWords(BccForm(i, src, dst), AssembleBcc(i % 16, Delta(target, dst)), AssembleBcc(Flip(i % 16), 8), target, dst)
  }

  function CbzWords(i: word, src: u64, dst: u64): seq<word>
  {
    var target := BccTarget(i, src);
    CondWords(BccForm(i, src, dst), AssembleCbz(Bit31(i), Bit24(i), Rd(i), Delta(target, dst)),
              AssembleCbz(Bit31(i), Flip(Bit24(i)), Rd(i), 8), target, dst)
  }

  function TbzWords(i: word, src: u64, dst: u64): seq<word>
  {
    var target := TbzTarget(i, src);
    CondWords(TbzForm(i, src, dst), AssembleTbz(Bit31(i), Bit24(i), Rd(i), Bits19(i), Delta(target, dst)),
              AssembleTbz(Bit31(i), Flip(Bit24(i)), Rd(i), Bits19(i), 8), target, dst)
  }

  predicate BranchNear(i: word, src: u64, dst: u64) { Within(Delta(BranchTarget(i, src), dst), 0x800_0000) }

  function BranchWords(i: word, src: u64, dst: u64, link: bool): seq<word>
  {
    var target := BranchTarget(i, src);
    if BranchNear(i, src, dst) then [AssembleBranch(link, Delta(target, dst))]
    else MovWords(17, target) + [AssembleBr(17, link)]
  }

  function AdrTarget(i: word, src: u64): u64
  {
    if Bit31(i) == 0 then Wrap(src + Adr19Imm(i)) else Wrap((src / 0x1000 + Adr19Imm(i)) * 0x1000)
  }

  function PageDelta(target: u64, dst: u64): int { target / 0x1000 - dst / 0x1000 }

  /** ADR stays ADR, or becomes ADRP and a 32-bit ADD, or a constant; ADRP stays ADRP or becomes a
      constant. */
  function AdrForm(i: word, src: u64, dst: u64): Form
  {
    var target := AdrTarget(i, src);
    if Bit31(i) == 0 && Within(Delta(target, dst), 0x10_0000) then Near
    else if Within(PageDelta(target, dst), 0x10_0000) then (if Bit31(i) == 0 then Pair else Near)
    else Far
  }

  function AdrWords(i: word, src: u64, dst: u64): seq<word>
  {
    var target, rd := AdrTarget(i, src), Rd(i);
    match AdrForm(i, src, dst)
    case Near => [AssembleAdr(Bit31(i), rd, if Bit31(i) == 0 then Delta(target, dst) else PageDelta(target, dst))]
    case Pair => [AssembleAdr(1, rd, PageDelta(target, dst)), AssembleAdd32(rd, rd, target % 0x1000)]
    case Far => MovWords(rd, target)
  }

  predicate IsLdrLiteral(i: word) { (i / 0x800_0000) % 8 == 3 && (i / 0x100_0000) % 4 == 0 }

  /** CopyInstruction: the words an instruction at `src` becomes at `dst`. */
  function CopiedWords(i: word, src: u64, dst: u64): seq<word>
  {
    if IsAdr(i) || IsAdrp(i) then AdrWords(i, src, dst)
    else if IsBcond(i) then BccWords(i, src, dst)
    else if IsB(i) || IsBl(i) then BranchWords(i, src, dst, Bit31(i) != 0)
    else if IsCbz(i) then CbzWords(i, src, dst)
    else if IsTbz(i) then TbzWords(i, src, dst)
    else [i]
  }

  class CDetourDis {
    const emitter: Emitter

    constructor ()
      ensures fresh(emitter) && emitter.words == []
    {
      emitter := new Emitter();
    }

    method CopyInstruction(i: word, src: u64, dst: u64) returns (lExtra: int)
      requires !IsLdrLiteral(i) && emitter.words == []
      modifies emitter
      ensures emitter.words == CopiedWords(i, src, dst) && lExtra == 4 * |emitter.words| - 4
    {
      hide AdrWords, BccWords, BranchWords, CbzWords, TbzWords, IsAdr, IsAdrp, IsBcond, IsB, IsBl, IsCbz, IsTbz, Bit31;
      if IsAdr(i) || IsAdrp(i) {
        CopyAdr(i, src, dst);
      } else if IsBcond(i) {
        CopyBcc(i, src, dst);
      } else if IsB(i) || IsBl(i) {
        CopyB_or_Bl(i, src, dst, Bit31(i) != 0);
      } else if IsCbz(i) {
        CopyCbz(i, src, dst);
      } else if IsTbz(i) {
        CopyTbz(i, src, dst);
      } else {
        emitter.EmitInstruction(i);
      }
      lExtra := 4 * |emitter.words| - 4;
    }

    method EmitConditional(form: Form, near: word, inverted: word, target: u64, dst: u64)
      modifies emitter
      ensures emitter.words == old(emitter.words) + CondWords(form, near, inverted, target, dst)
    {
      if form == Near {
        emitter.EmitInstruction(near);
      } else if form == Pair {
        emitter.EmitInstruction(inverted);
        emitter.EmitInstruction(AssembleBranch(false, Delta(target, Wrap(dst + 4))));
      } else {
        emitter.EmitMovImmediate(17, target);
        emitter.EmitInstruction(inverted);
        emitter.EmitInstruction(AssembleBr(17, false));
      }
    }

    method CopyBcc(i: word, src: u64, dst: u64)
      modifies emitter
      ensures emitter.words == old(emitter.words) + BccWords(i, src, dst)
    {
      var target := BccTarget(i, src);
      EmitConditional(BccForm(i, src, dst), AssembleBcc(i % 16, Delta(target, dst)), AssembleBcc(Flip(i % 16), 8),
                      target, dst);
    }

    method CopyCbz(i: word, src: u64, dst: u64)
      modifies emitter
      ensures emitter.words == old(emitter.words) + CbzWords(i, src, dst)
    {
      var target := BccTarget(i, src);
      EmitConditional(BccForm(i, src, dst), AssembleCbz(Bit31(i), Bit24(i), Rd(i), Delta(target, dst)),
                      AssembleCbz(Bit31(i), Flip(Bit24(i)), Rd(i), 8), target, dst);
    }

    method CopyTbz(i: word, src: u64, dst: u64)
      modifies emitter
      ensures emitter.words == old(emitter.words) + TbzWords(i, src, dst)
    {
      var target := TbzTarget(i, src);
      EmitConditional(TbzForm(i, src, dst), AssembleTbz(Bit31(i), Bit24(i), Rd(i), Bits19(i), Delta(target, dst)),
                      AssembleTbz(Bit31(i), Flip(Bit24(i)), Rd(i), Bits19(i), 8), target, dst);
    }

    method CopyB_or_Bl(i: word, src: u64, dst: u64, link: bool)
      modifies emitter
      ensures emitter.words == old(emitter.words) + BranchWords(i, src, dst, link)
    {
      var target := BranchTarget(i, src);
      if BranchNear(i, src, dst) {
        emitter.EmitInstruction(AssembleBranch(link, Delta(target, dst)));
      } else {
        emitter.EmitMovImmediate(17, target);
        emitter.EmitInstruction(AssembleBr(17, link));
      }
    }

    method CopyAdr(i: word, src: u64, dst: u64)
      modifies emitter
      ensures emitter.words == old(emitter.words) + AdrWords(i, src, dst)
    {
      hide Wrap, Delta, PageDelta, AssembleAdr, AssembleAdd32, MovWords;
      var target, rd := AdrTarget(i, src), Rd(i);
      var form := AdrForm(i, src, dst);
      if form == Near {
        emitter.EmitInstruction(AssembleAdr(Bit31(i), rd, if Bit31(i) == 0 then Delta(target, dst)
                                            else PageDelta(target, dst)));
      } else if form == Pair {
        emitter.EmitInstruction(AssembleAdr(1, rd, PageDelta(target, dst)));
        emitter.EmitInstruction(AssembleAdd32(rd, rd, target % 0x1000));
      } else {
        emitter.EmitMovImmediate(rd, target);
      }
    }
  }

  // ------------------------------------------------------------------ single steps, by encoding

  lemma StepBranch(i: word, s: State)
    ensures IsB(i) ==> Step(i, s) == Some(s.(pc := Wrap(s.pc + 4 * Ext26(Imm26(i)))))
    ensures IsBl(i) ==> Step(i, s) == Some(WithReg(s, 30, Wrap(s.pc + 4)).(pc := Wrap(s.pc + 4 * Ext26(Imm26(i)))))
  {
    hide Wrap, WithReg, Ext26;
  }

  lemma StepBcond(i: word, s: State)
    requires IsBcond(i)
    ensures Step(i, s) == Some(Goto(s, BcondTaken(i, s), Wrap(s.pc + 4 * Ext19(Imm19(i)))))
  {
    hide Wrap, Goto, Ext19, BcondTaken;
  }

  lemma Opcode6(i: word)
    ensures IsCbz(i) ==> !IsB(i) && !IsBl(i) && !IsBcond(i)
    ensures IsTbz(i) ==> !IsB(i) && !IsBl(i) && !IsBcond(i) && !IsCbz(i)
  {
    var q := i / 0x200_0000;
    assert i / 0x400_0000 == q / 2 && (i / 0x100_0000) / 2 == q;
  }

  lemma StepCbz(i: word, s: State)
    requires IsCbz(i)
    ensures Step(i, s) == Some(Goto(s, CbzTaken(i, s), Wrap(s.pc + 4 * Ext19(Imm19(i)))))
  {
    hide Wrap, Goto, Ext19, CbzTaken, IsB, IsBl, IsBcond, IsCbz;
    Opcode6(i);
  }

  lemma StepTbz(i: word, s: State)
    requires IsTbz(i)
    ensures Step(i, s) == Some(Goto(s, TbzTaken(i, s), Wrap(s.pc + 4 * Ext14(Imm14(i)))))
  {
    hide Wrap, Goto, Ext14, TbzTaken, IsB, IsBl, IsBcond, IsCbz, IsTbz;
    Opcode6(i);
  }

  lemma StepBr(i: word, s: State)
    ensures IsBr(i) ==> Step(i, s) == Some(s.(pc := Reg(s, Rn(i))))
    ensures IsBlr(i) ==> Step(i, s) == Some(WithReg(s, 30, Wrap(s.pc + 4)).(pc := Reg(s, Rn(i))))
  {
    hide Wrap, Goto, WithReg, Reg, Rn;
    var q := i / 0x400;
    assert i / 0x200_0000 == q / 0x8000 && i / 0x400_0000 == q / 0x1_0000 && i / 0x100_0000 == q / 0x4000;
  }

  lemma Opcode5(i: word)
    ensures (i / 0x100_0000) % 32 == 0x10 || (i / 0x100_0000) % 128 == 0x11 ==>
              !IsB(i) && !IsBl(i) && !IsBcond(i) && !IsCbz(i) && !IsTbz(i) && !IsBr(i) && !IsBlr(i)
  {
    var q := i / 0x100_0000;
    TopByte(i);
    if q % 32 == 0x10 {
      assert q == 0x10 || q == 0x30 || q == 0x50 || q == 0x70 || q == 0x90 || q == 0xb0 || q == 0xd0 || q == 0xf0;
    }
    if q % 128 == 0x11 { assert q == 0x11 || q == 0x91; }
  }

  lemma TopByte(i: word)
    ensures var q := i / 0x100_0000;
            0 <= q < 0x100 && i / 0x200_0000 == q / 2 && i / 0x400_0000 == q / 4 && (i / 0x400) / 0x4000 == q
  {
  }

  lemma StepAdr(i: word, s: State)
    ensures IsAdr(i) ==> Step(i, s) == Some(Next(WithReg(s, Rd(i), Wrap(s.pc + Ext21(Imm21(i))))))
    ensures IsAdrp(i) ==>
              Step(i, s) == Some(Next(WithReg(s, Rd(i), Wrap(s.pc - s.pc % 0x1000 + 0x1000 * Ext21(Imm21(i))))))
  {
    hide Wrap, Next, WithReg, Rd, Imm21, Ext21, IsB, IsBl, IsBcond, IsCbz, IsTbz, IsBr, IsBlr;
    Opcode5(i);
  }

  lemma StepAdd32(i: word, s: State)
    requires IsAddImm(i) && Bit31(i) == 0
    ensures Step(i, s) == Some(Next(WithRegOrSp(s, Rd(i), (RegOrSp(s, Rn(i)) + Imm12(i)) % TWO32)))
  {
    hide Wrap, Next, WithRegOrSp, RegOrSp, Rd, Rn, Imm12, IsB, IsBl, IsBcond, IsCbz, IsTbz, IsBr, IsBlr;
    Opcode5(i);
  }

  // --------------------------------------------------------------------------- displacements

  lemma DeltaLands(target: u64, at: u64)
    ensures Wrap(at + Delta(target, at)) == target && (target % 4 == at % 4 ==> Delta(target, at) % 4 == 0)
  {
    hide Delta, Wrap, Signed64;
    DeltaCases(target, at);
    WrapCases(target);
  }

  lemma DeltaCases(target: u64, at: u64)
    ensures Delta(target, at) == target - at || Delta(target, at) == target - at + TWO64
            || Delta(target, at) == target - at - TWO64
  {
    var x := target - at;
    if x >= 0 { assert x % TWO64 == x; } else { assert x % TWO64 == x + TWO64; }
  }

  lemma WrapCases(v: u64)
    ensures Wrap(v) == v && Wrap(v + TWO64) == v && Wrap(v - TWO64) == v
  {
  }

  lemma Fits26(d: int)
    requires Within(d, 0x800_0000) && d % 4 == 0
    ensures 4 * Ext26((d / 4) % 0x400_0000) == d
  {
  }

  lemma Reaches26(target: u64, at: u64)
    requires Within(Delta(target, at), 0x800_0000) && target % 4 == at % 4
    ensures Wrap(at + 4 * Ext26((Delta(target, at) / 4) % 0x400_0000)) == target
  {
    hide Wrap, Delta, Ext26, Within;
    DeltaLands(target, at);
    Fits26(Delta(target, at));
  }

  lemma Fits19(d: int)
    requires Within(d, 0x10_0000) && d % 4 == 0
    ensures 4 * Ext19((d / 4) % 0x8_0000) == d
  {
  }

  lemma Reaches19(target: u64, at: u64)
    requires Within(Delta(target, at), 0x10_0000) && target % 4 == at % 4
    ensures Wrap(at + 4 * Ext19((Delta(target, at) / 4) % 0x8_0000)) == target
  {
    hide Wrap, Delta, Ext19, Within;
    DeltaLands(target, at);
    Fits19(Delta(target, at));
  }

  lemma Fits14(d: int)
    requires Within(d, 0x2000) && d % 4 == 0
    ensures 4 * Ext14((d / 4) % 0x4000) == d
  {
  }

  lemma Reaches14(target: u64, at: u64)
    requires Within(Delta(target, at), 0x2000) && target % 4 == at % 4
    ensures Wrap(at + 4 * Ext14((Delta(target, at) / 4) % 0x4000)) == target
  {
    hide Wrap, Delta, Ext14, Within;
    DeltaLands(target, at);
    Fits14(Delta(target, at));
  }

  lemma SkipsOne(at: u64)
    ensures Wrap(at + 4 * Ext19((8 / 4) % 0x8_0000)) == Wrap(at + 8)
            && Wrap(at + 4 * Ext14((8 / 4) % 0x4000)) == Wrap(at + 8)
    ensures Wrap(at + 4) != Wrap(at + 8) && Wrap(Wrap(at + 4) + 4) == Wrap(at + 8)
  {
  }

  // ------------------------------------------------------------------------ emitted sequences

  lemma ExecOne(i: word, s: State)
    requires Step(i, s).Some?
    ensures Exec([i], s) == Step(i, s)
  {
    hide Step;
    assert [i][1..] == [];
  }

  /** An inverted conditional branch over one jump: the jump is taken exactly when the inverted branch
      is not. */
  lemma ExecOver(inverted: word, jump: word, s: State, skip: bool, target: u64)
    requires Step(inverted, s) == Some(Goto(s, skip, Wrap(s.pc + 8)))
    requires Step(jump, Next(s)) == Some(Next(s).(pc := target))
    ensures Exec([inverted, jump], s) == Some(s.(pc := if skip then Wrap(s.pc + 8) else target))
  {
    hide Step, Wrap, Exec;
    var words := [inverted, jump];
    SkipsOne(s.pc);
    assert words[1..] == [jump] && words[2..] == [];
    ExecForm(words, s);
    ExecNone(s.(pc := Wrap(s.pc + 8)));
    ExecOne(jump, Next(s));
  }

  lemma ExecForm(words: seq<word>, s: State)
    requires |words| >= 2 && Step(words[0], s).Some?
    ensures var t := Step(words[0], s).value;
            && (t.pc == Wrap(s.pc + 4) ==> Exec(words, s) == Exec(words[1..], t))
            && (t.pc == Wrap(s.pc + 8) && t.pc != Wrap(s.pc + 4) ==> Exec(words, s) == Exec(words[2..], t))
  {
    hide Step, Wrap;
  }

  lemma ExecNone(s: State)
    ensures Exec([], s) == Some(s)
  {
  }

  /** Registers and flags are as in `s`, register 17 apart if the far form was used. */
  ghost predicate SameBut17(s: State, u: State, far: bool)
  {
    && u.sp == s.sp && u.flags == s.flags
    && forall r :: r != 17 || !far ==> Reg(u, r) == Reg(s, r)
  }

  /** The copy at `dst` leaves the program counter at the target if the branch is taken, else behind
      the emitted words, and changes nothing else but register 17 in its far form. */
  ghost predicate Kept(words: seq<word>, s: State, dst: u64, taken: bool, target: u64, far: bool)
  {
    match Exec(words, s.(pc := dst))
    case None => false
    case Some(u) => u.pc == (if taken then target else Wrap(dst + 4 * |words|)) && SameBut17(s, u, far)
  }

  /** A conditional copy, from what its direct and its inverted word do. */
  lemma CondExec(form: Form, near: word, inverted: word, target: u64, dst: u64, s: State, taken: bool, skip: bool)
    returns (at: State)
    requires target % 4 == dst % 4
    requires form.Pair? ==> Within(Delta(target, Wrap(dst + 4)), 0x800_0000)
    requires form.Near? ==> Step(near, s.(pc := dst)) == Some(Goto(s.(pc := dst), taken, target))
    requires forall u: State :: SameBut17(s, u, form.Far?) && (form.Far? ==> Reg(u, 17) == target) ==>
                                  Step(inverted, u) == Some(Goto(u, skip, Wrap(u.pc + 8)))
    ensures SameBut17(s, at, form.Far?) && (form.Far? ==> Reg(at, 17) == target)
    ensures var words := CondWords(form, near, inverted, target, dst);
            Exec(words, s.(pc := dst)) ==
            Some(at.(pc := if (if form.Near? then taken else !skip) then target else Wrap(dst + 4 * |words|)))
  {
    hide Step, Exec, AssembleBranch, AssembleBr, MovWords, Delta, Wrap, SameBut17, Within;
    StartSame(s, dst);
    if form.Near? {
      at := s.(pc := dst);
      ExecOne(near, at);
      DstWrap(dst);
    } else if form.Pair? {
      at := s.(pc := dst);
      PairExec(inverted, target, dst, at, skip);
      DstWrap(dst);
    } else {
      at := FarExec(inverted, target, dst, s, skip);
    }
  }

  lemma StartSame(s: State, dst: u64)
    ensures SameBut17(s, s.(pc := dst), false)
  {
  }

  lemma PairExec(inverted: word, target: u64, dst: u64, start: State, skip: bool)
    requires start.pc == dst && target % 4 == dst % 4 && Within(Delta(target, Wrap(dst + 4)), 0x800_0000)
    requires Step(inverted, start) == Some(Goto(start, skip, Wrap(start.pc + 8)))
    ensures Exec([inverted, AssembleBranch(false, Delta(target, Wrap(dst + 4)))], start) ==
            Some(start.(pc := if skip then Wrap(dst + 8) else target))
  {
    hide Step, Exec, AssembleBranch, Delta, Wrap, Ext26, Imm26, Within, IsB, IsBl;
    var delta := Delta(target, Wrap(dst + 4));
    var jump := AssembleBranch(false, delta);
    BranchFields(false, delta);
    StepBranch(jump, Next(start));
    PairAligned(target, dst);
    Reaches26(target, Wrap(dst + 4));
    ExecOver(inverted, jump, start, skip, target);
  }

  lemma FarExec(inverted: word, target: u64, dst: u64, s: State, skip: bool) returns (t: State)
    requires forall u: State :: SameBut17(s, u, true) && Reg(u, 17) == target ==>
                                  Step(inverted, u) == Some(Goto(u, skip, Wrap(u.pc + 8)))
    ensures SameBut17(s, t, true) && Reg(t, 17) == target
    ensures var words := MovWords(17, target) + [inverted, AssembleBr(17, false)];
            Exec(words, s.(pc := dst)) == Some(t.(pc := if skip then Wrap(dst + 4 * |words|) else target))
  {
    hide Step, Exec, AssembleBr, MovWords, Wrap, SameBut17, IsBr, IsBlr, Rn, Loaded;
    var jump := AssembleBr(17, false);
    var start := s.(pc := dst);
    t := MovLoads(17, target, [inverted, jump], start);
    LoadedFar(s, start, t, target, |MovWords(17, target)|);
    BrFields(17, false);
    StepBr(jump, Next(t));
    assert Reg(Next(t), 17) == Reg(t, 17);
    ExecOver(inverted, jump, t, skip, target);
    FarEnd(dst, t.pc, |MovWords(17, target)|);
  }

  lemma DstWrap(dst: u64)
    ensures Wrap(dst + 4 * 1) == Wrap(dst + 4) && Wrap(dst + 4 * 2) == Wrap(dst + 8)
  {
  }

  lemma PairAligned(target: u64, dst: u64)
    requires target % 4 == dst % 4
    ensures target % 4 == Wrap(dst + 4) % 4
  {
  }

  lemma LoadedFar(s: State, start: State, t: State, target: u64, n: int)
    requires start == s.(pc := start.pc) && Loaded(start, t, 17, target, n)
    ensures SameBut17(s, t, true) && Reg(t, 17) == target && t.pc == Wrap(start.pc + 4 * n)
  {
    hide Wrap;
    assert forall r :: Reg(start, r) == Reg(s, r);
  }

  lemma FarEnd(dst: u64, pc: u64, n: int)
    requires pc == Wrap(dst + 4 * n)
    ensures Wrap(pc + 8) == Wrap(dst + 4 * (n + 2))
  {
  }

  // ----------------------------------------------------------------------------- conditionals

  lemma FlipHolds(cond: int, f: Flags)
    requires 0 <= cond < 16
    ensures 0 <= Flip(cond) < 16
    ensures cond < 14 ==> ConditionHolds(Flip(cond), f) == !ConditionHolds(cond, f)
    ensures cond >= 14 ==> ConditionHolds(Flip(cond), f) && ConditionHolds(cond, f)
  {
  }

  lemma TargetAligned(i: word, src: u64, dst: u64)
    requires src % 4 == 0 && dst % 4 == 0
    ensures BccTarget(i, src) % 4 == dst % 4 && TbzTarget(i, src) % 4 == dst % 4 && BranchTarget(i, src) % 4 == dst % 4
    ensures BccTarget(i, src) == Wrap(src + 4 * Ext19(Imm19(i))) && TbzTarget(i, src) == Wrap(src + 4 * Ext14(Imm14(i)))
    ensures BranchTarget(i, src) == Wrap(src + 4 * Ext26(Imm26(i)))
  {
    hide ShiftedImm, Ext19, Ext14, Ext26, Imm19, Imm14, Imm26, Bcc19Imm, Tbz14Imm, Branch26Imm, Wrap;
    Imms(i);
    WordAligned(src, dst, Ext19(Imm19(i)));
    WordAligned(src, dst, Ext14(Imm14(i)));
    WordAligned(src, dst, Ext26(Imm26(i)));
  }

  lemma WordAligned(src: u64, dst: u64, k: int)
    requires src % 4 == 0 && dst % 4 == 0
    ensures Wrap(src + 4 * k) % 4 == dst % 4
  {
  }

  /** A target out of direct reach is not the address behind the copy. */
  lemma NotBehind(target: u64, dst: u64, n: int, reach: int)
    requires !Within(Delta(target, dst), reach) && reach >= 0x2000 && 0 <= n <= 6
    ensures Wrap(dst + 4 * n) != target
  {
  }

  lemma CondLength(form: Form, near: word, inverted: word, target: u64, dst: u64)
    ensures 1 <= |CondWords(form, near, inverted, target, dst)| <= 6
  {
    MovLength(17, target);
  }

  lemma BccStep(cond: int, delta: int, target: u64, u: State)
    requires 0 <= cond < 16 && Wrap(u.pc + 4 * Ext19((delta / 4) % 0x8_0000)) == target
    ensures Step(AssembleBcc(cond, delta), u) == Some(Goto(u, ConditionHolds(cond, u.flags), target))
  {
    hide Step, AssembleBcc, Wrap, Ext19, ConditionHolds, Imm19, IsBcond;
    BccFields(cond, delta);
    StepBcond(AssembleBcc(cond, delta), u);
  }

  /** B.cond: the copy keeps its meaning in every state, exactly unless it had to invert AL or NV. */
  lemma BccKept(i: word, src: u64, dst: u64, s: State)
    requires IsBcond(i) && src % 4 == 0 && dst % 4 == 0
    ensures Kept(BccWords(i, src, dst), s, dst, BcondTaken(i, s), BccTarget(i, src), BccForm(i, src, dst).Far?)
       <==> i % 16 < 14 || BccForm(i, src, dst).Near?
    ensures Step(i, s.(pc := src)) == Some(Goto(s.(pc := src), BcondTaken(i, s), BccTarget(i, src)))
  {
    hide Step, Exec, AssembleBcc, Wrap, Ext19, ConditionHolds, Imm19, BccTarget, CondWords, IsBcond, Delta, SameBut17;
    var target, form, cond := BccTarget(i, src), BccForm(i, src, dst), i % 16;
    var near, inverted := AssembleBcc(cond, Delta(target, dst)), AssembleBcc(Flip(cond), 8);
    TargetAligned(i, src, dst);
    StepBcond(i, s.(pc := src));
    FlipHolds(cond, s.flags);
    if form.Near? {
      Reaches19(target, dst);
      BccStep(cond, Delta(target, dst), target, s.(pc := dst));
    }
    forall u: State | SameBut17(s, u, form.Far?) && (form.Far? ==> Reg(u, 17) == target)
      ensures Step(inverted, u) == Some(Goto(u, ConditionHolds(Flip(cond), s.flags), Wrap(u.pc + 8)))
    {
      SkipsOne(u.pc);
      assert u.flags == s.flags by { SameFlags(s, u, form.Far?); }
      BccStep(Flip(cond), 8, Wrap(u.pc + 8), u);
    }
    var at := CondExec(form, near, inverted, target, dst, s, ConditionHolds(cond, s.flags),
                       ConditionHolds(Flip(cond), s.flags));
    CondLength(form, near, inverted, target, dst);
    SamePc(s, at, form.Far?);
    if !form.Near? { NotBehind(target, dst, |CondWords(form, near, inverted, target, dst)|, 0x10_0000); }
  }

  lemma SameFlags(s: State, u: State, far: bool)
    requires SameBut17(s, u, far)
    ensures u.flags == s.flags
  {
  }

  lemma SamePc(s: State, u: State, far: bool)
    requires SameBut17(s, u, far)
    ensures forall pc: u64 :: SameBut17(s, u.(pc := pc), far)
  {
    forall pc: u64 ensures SameBut17(s, u.(pc := pc), far) {
      assert forall r :: Reg(u.(pc := pc), r) == Reg(u, r);
    }
  }

  /** The value CBZ and CBNZ compare with zero, for register content `v`. */
  predicate CbzTest(size: int, nz: int, v: u64)
  {
    ((if size == 0 then v % TWO32 else v) == 0) == (nz == 0)
  }

  lemma CbzStep(size: int, nz: int, rt: int, delta: int, target: u64, u: State)
    requires 0 <= size < 2 && 0 <= nz < 2 && 0 <= rt < 32 && Wrap(u.pc + 4 * Ext19((delta / 4) % 0x8_0000)) == target
    ensures Step(AssembleCbz(size, nz, rt, delta), u) == Some(Goto(u, CbzTest(size, nz, Reg(u, rt)), target))
  {
    hide Step, AssembleCbz, Wrap, Ext19, Imm19, IsCbz, Bit24, Bit31, Rd;
    CbzFields(size, nz, rt, delta);
    StepCbz(AssembleCbz(size, nz, rt, delta), u);
  }

  lemma CbzBits(i: word)
    ensures 0 <= Bit31(i) < 2 && 0 <= Bit24(i) < 2 && 0 <= Rd(i) < 32 && 0 <= Bits19(i) < 32
    ensures 0 <= Flip(Bit24(i)) < 2
  {
  }

  /** Where the copy of a CBZ or CBNZ leaves the machine: it tests the register after 17 was loaded. */
  lemma CbzExec(i: word, src: u64, dst: u64, s: State) returns (at: State)
    requires IsCbz(i) && src % 4 == 0 && dst % 4 == 0
    ensures var form := BccForm(i, src, dst);
            var target := BccTarget(i, src);
            var words := CbzWords(i, src, dst);
            && SameBut17(s, at, form.Far?) && (form.Far? ==> Reg(at, 17) == target)
            && var tested := if form.Far? && Rd(i) == 17 then target else Reg(s, Rd(i));
            Exec(words, s.(pc := dst)) ==
            Some(at.(pc := if CbzTest(Bit31(i), Bit24(i), tested) then target else Wrap(dst + 4 * |words|)))
  {
    hide Step, Exec, AssembleCbz, Wrap, Ext19, Imm19, BccTarget, CondWords, IsCbz, Bit24, Bit31, Rd, Delta, SameBut17;
    var target, form := BccTarget(i, src), BccForm(i, src, dst);
    var size, nz, rt := Bit31(i), Bit24(i), Rd(i);
    var near, inverted := AssembleCbz(size, nz, rt, Delta(target, dst)), AssembleCbz(size, Flip(nz), rt, 8);
    TargetAligned(i, src, dst);
    CbzBits(i);
    var tested := if form.Far? && rt == 17 then target else Reg(s, rt);
    if form.Near? {
      Reaches19(target, dst);
      CbzStep(size, nz, rt, Delta(target, dst), target, s.(pc := dst));
    }
    forall u: State | SameBut17(s, u, form.Far?) && (form.Far? ==> Reg(u, 17) == target)
      ensures Step(inverted, u) == Some(Goto(u, CbzTest(size, Flip(nz), tested), Wrap(u.pc + 8)))
    {
      SkipsOne(u.pc);
      TestedReg(s, u, form.Far?, rt, target);
      CbzStep(size, Flip(nz), rt, 8, Wrap(u.pc + 8), u);
    }
    at := CondExec(form, near, inverted, target, dst, s, CbzTest(size, nz, tested), CbzTest(size, Flip(nz), tested));
  }

  lemma TestedReg(s: State, u: State, far: bool, rt: int, target: u64)
    requires SameBut17(s, u, far) && (far ==> Reg(u, 17) == target)
    ensures Reg(u, rt) == if far && rt == 17 then target else Reg(s, rt)
  {
  }

  ghost predicate CbzKeptIn(i: word, src: u64, dst: u64, s: State)
  {
    Kept(CbzWords(i, src, dst), s, dst, CbzTaken(i, s), BccTarget(i, src), BccForm(i, src, dst).Far?)
  }

  lemma CbzKeptFor(i: word, src: u64, dst: u64, s: State)
    requires IsCbz(i) && src % 4 == 0 && dst % 4 == 0
    ensures var form := BccForm(i, src, dst);
            && (form.Far? && Rd(i) == 17 ==>
                  (CbzKeptIn(i, src, dst, s) <==>
                   CbzTest(Bit31(i), Bit24(i), BccTarget(i, src)) == CbzTest(Bit31(i), Bit24(i), Reg(s, 17))))
            && (!(form.Far? && Rd(i) == 17) ==> CbzKeptIn(i, src, dst, s))
  {
    hide Step, Exec, Wrap, BccTarget, CbzWords, IsCbz, Bit24, Bit31, Rd, Delta, SameBut17;
    var form := BccForm(i, src, dst);
    var at := CbzExec(i, src, dst, s);
    SamePc(s, at, form.Far?);
    CbzLength(i, src, dst);
    if !form.Near? { NotBehind(BccTarget(i, src), dst, |CbzWords(i, src, dst)|, 0x10_0000); }
  }

  lemma CbzLength(i: word, src: u64, dst: u64)
    ensures 1 <= |CbzWords(i, src, dst)| <= 6
  {
    hide AssembleCbz, BccForm, BccTarget, CondWords;
    var target := BccTarget(i, src);
    CondLength(BccForm(i, src, dst), AssembleCbz(Bit31(i), Bit24(i), Rd(i), Delta(target, dst)),
               AssembleCbz(Bit31(i), Flip(Bit24(i)), Rd(i), 8), target, dst);
  }

  const NO_STATE := State(0, map[], 0, Flags(false, false, false, false))

  /** CBZ and CBNZ: the copy keeps its meaning in every state, exactly unless it is a far copy that
      tests register 17. */
  lemma CbzKept(i: word, src: u64, dst: u64)
    requires IsCbz(i) && src % 4 == 0 && dst % 4 == 0
    ensures (forall s: State :: CbzKeptIn(i, src, dst, s)) <==> !(BccForm(i, src, dst).Far? && Rd(i) == 17)
  {
    hide CbzKeptIn, BccForm, BccTarget, Bit24, Bit31, Rd, IsCbz;
    if BccForm(i, src, dst).Far? && Rd(i) == 17 {
      var zero, one := NO_STATE, NO_STATE.(x := map[17 := 1]);
      CbzKeptFor(i, src, dst, zero);
      CbzKeptFor(i, src, dst, one);
      assert Reg(zero, 17) == 0 && Reg(one, 17) == 1;
    } else {
      forall s: State ensures CbzKeptIn(i, src, dst, s) { CbzKeptFor(i, src, dst, s); }
    }
  }

  predicate TbzTest(size: int, nz: int, bit: int, v: u64)
  {
    (BitOf(v, 32 * size + bit) == 0) == (nz == 0)
  }

  lemma TbzStep(size: int, nz: int, rt: int, bit: int, delta: int, target: u64, u: State)
    requires 0 <= size < 2 && 0 <= nz < 2 && 0 <= rt < 32 && 0 <= bit < 32
             && Wrap(u.pc + 4 * Ext14((delta / 4) % 0x4000)) == target
    ensures Step(AssembleTbz(size, nz, rt, bit, delta), u) == Some(Goto(u, TbzTest(size, nz, bit, Reg(u, rt)), target))
  {
    hide Step, AssembleTbz, Wrap, Ext14, Imm14, IsTbz, Bit24, Bit31, Rd, Bits19, BitOf;
    TbzFields(size, nz, rt, bit, delta);
    StepTbz(AssembleTbz(size, nz, rt, bit, delta), u);
  }

  lemma TbzExec(i: word, src: u64, dst: u64, s: State) returns (at: State)
    requires IsTbz(i) && src % 4 == 0 && dst % 4 == 0
    ensures var form := TbzForm(i, src, dst);
            var target := TbzTarget(i, src);
            var words := TbzWords(i, src, dst);
            && SameBut17(s, at, form.Far?) && (form.Far? ==> Reg(at, 17) == target)
            && var tested := if form.Far? && Rd(i) == 17 then target else Reg(s, Rd(i));
            Exec(words, s.(pc := dst)) ==
            Some(at.(pc := if TbzTest(Bit31(i), Bit24(i), Bits19(i), tested) then target
                 else Wrap(dst + 4 * |words|)))
  {
    hide Step, Exec, AssembleTbz, Wrap, Ext14, Imm14, TbzTarget, CondWords, IsTbz, Bit24, Bit31, Rd, Bits19, Delta,
      SameBut17, BitOf;
    var target, form := TbzTarget(i, src), TbzForm(i, src, dst);
    var size, nz, rt, bit := Bit31(i), Bit24(i), Rd(i), Bits19(i);
    var near, inverted := AssembleTbz(size, nz, rt, bit, Delta(target, dst)), AssembleTbz(size, Flip(nz), rt, bit, 8);
    TargetAligned(i, src, dst);
    CbzBits(i);
    var tested := if form.Far? && rt == 17 then target else Reg(s, rt);
    if form.Near? {
      Reaches14(target, dst);
      TbzStep(size, nz, rt, bit, Delta(target, dst), target, s.(pc := dst));
    }
    forall u: State | SameBut17(s, u, form.Far?) && (form.Far? ==> Reg(u, 17) == target)
      ensures Step(inverted, u) == Some(Goto(u, TbzTest(size, Flip(nz), bit, tested), Wrap(u.pc + 8)))
    {
      SkipsOne(u.pc);
      TestedReg(s, u, form.Far?, rt, target);
      TbzStep(size, Flip(nz), rt, bit, 8, Wrap(u.pc + 8), u);
    }
    at := CondExec(form, near, inverted, target, dst, s, TbzTest(size, nz, bit, tested),
                   TbzTest(size, Flip(nz), bit, tested));
  }

  ghost predicate TbzKeptIn(i: word, src: u64, dst: u64, s: State)
  {
    Kept(TbzWords(i, src, dst), s, dst, TbzTaken(i, s), TbzTarget(i, src), TbzForm(i, src, dst).Far?)
  }

  lemma TbzKeptFor(i: word, src: u64, dst: u64, s: State)
    requires IsTbz(i) && src % 4 == 0 && dst % 4 == 0
    ensures var form := TbzForm(i, src, dst);
            && (form.Far? && Rd(i) == 17 ==>
                  (TbzKeptIn(i, src, dst, s)
                   <==> TbzTest(Bit31(i), Bit24(i), Bits19(i), TbzTarget(i, src)) ==
                        TbzTest(Bit31(i), Bit24(i), Bits19(i), Reg(s, 17))))
            && (!(form.Far? && Rd(i) == 17) ==> TbzKeptIn(i, src, dst, s))
  {
    hide Step, Exec, Wrap, TbzTarget, TbzWords, IsTbz, Bit24, Bit31, Bits19, Rd, Delta, SameBut17, BitOf;
    var form := TbzForm(i, src, dst);
    var at := TbzExec(i, src, dst, s);
    SamePc(s, at, form.Far?);
    TbzLength(i, src, dst);
    if !form.Near? { NotBehind(TbzTarget(i, src), dst, |TbzWords(i, src, dst)|, 0x2000); }
  }

  lemma TbzLength(i: word, src: u64, dst: u64)
    ensures 1 <= |TbzWords(i, src, dst)| <= 6
  {
    hide AssembleTbz, TbzForm, TbzTarget, CondWords;
    var target := TbzTarget(i, src);
    CondLength(TbzForm(i, src, dst), AssembleTbz(Bit31(i), Bit24(i), Rd(i), Bits19(i), Delta(target, dst)),
               AssembleTbz(Bit31(i), Flip(Bit24(i)), Rd(i), Bits19(i), 8), target, dst);
  }

  lemma {:induction false} PowerMono(k: nat, n: nat)
    requires k <= n
    ensures Power(k) <= Power(n)
    decreases n - k
  {
    if k < n { PowerMono(k + 1, n); }
  }

  lemma PowerBound(k: nat)
    requires k <= 63
    ensures 2 * Power(k) <= TWO64
  {
    hide Power;
    PowerFour();
    PowerSum(4, 4);
    PowerSum(8, 8);
    PowerSum(16, 16);
    PowerSum(32, 32);
    PowerMono(k + 1, 64);
    PowerNext(k);
  }

  lemma BitFacts(k: nat)
    ensures BitOf(0, k) == 0 && BitOf(Power(k), k) == 1
  {
    hide Power;
    var p := Power(k);
    assert 0 / p == 0 && p / p == 1;
  }

  lemma PowerFour()
    ensures Power(4) == 16
  {
    assert Power(4) == 2 * Power(3) == 4 * Power(2) == 8 * Power(1);
  }

  lemma PowerZero()
    ensures Power(0) == 1
  {
  }

  lemma PowerNext(k: nat)
    ensures Power(k + 1) == 2 * Power(k)
  {
  }

  lemma {:induction false} PowerSum(a: nat, b: nat)
    ensures Power(a) * Power(b) == Power(a + b)
    decreases b
  {
    PowerZero();
    hide Power;
    if b > 0 {
      PowerSum(a, b - 1);
      PowerNext(b - 1);
      PowerNext(a + b - 1);
      assert Power(a) * (2 * Power(b - 1)) == 2 * (Power(a) * Power(b - 1));
    }
  }

  /** TBZ and TBNZ: the copy keeps its meaning in every state, exactly unless it is a far copy that
      tests register 17. */
  lemma TbzKept(i: word, src: u64, dst: u64)
    requires IsTbz(i) && src % 4 == 0 && dst % 4 == 0
    ensures (forall s: State :: TbzKeptIn(i, src, dst, s)) <==> !(TbzForm(i, src, dst).Far? && Rd(i) == 17)
  {
    hide TbzKeptIn, TbzForm, TbzTarget, Bit24, Bit31, Bits19, Rd, IsTbz, Power, BitOf;
    if TbzForm(i, src, dst).Far? && Rd(i) == 17 {
      var k := 32 * Bit31(i) + Bits19(i);
      CbzBits(i);
      PowerBound(k);
      var zero, one := NO_STATE, NO_STATE.(x := map[17 := Power(k)]);
      TbzKeptFor(i, src, dst, zero);
      TbzKeptFor(i, src, dst, one);
      assert Reg(zero, 17) == 0 && Reg(one, 17) == Power(k);
      BitFacts(k);
    } else {
      forall s: State ensures TbzKeptIn(i, src, dst, s) { TbzKeptFor(i, src, dst, s); }
    }
  }

  // ---------------------------------------------------------------------- B, BL, ADR and ADRP

  /** B and BL: the copy goes to the same target; BL makes the link register point behind the copy. */
  lemma BranchKept(i: word, src: u64, dst: u64, link: bool, s: State) returns (u: State)
    requires (if link then IsBl(i) else IsB(i)) && src % 4 == 0 && dst % 4 == 0
    ensures Exec(BranchWords(i, src, dst, link), s.(pc := dst)) == Some(u)
    ensures u.pc == BranchTarget(i, src) == Step(i, s.(pc := src)).value.pc
    ensures link ==> Reg(u, 30) == Wrap(dst + 4 * |BranchWords(i, src, dst, link)|)
    ensures u.sp == s.sp && u.flags == s.flags
    ensures forall r :: (r == 30 ==> !link) && (r == 17 ==> BranchNear(i, src, dst)) ==> Reg(u, r) == Reg(s, r)
  {
    hide Step, Exec, AssembleBranch, AssembleBr, MovWords, Delta, Wrap, Ext26, Imm26, Within, IsB, IsBl, IsBr,
      IsBlr, Rn, BranchTarget, Loaded;
    var target := BranchTarget(i, src);
    TargetAligned(i, src, dst);
    StepBranch(i, s.(pc := src));
    var start := s.(pc := dst);
    assert forall r :: Reg(start, r) == Reg(s, r);
    if BranchNear(i, src, dst) {
      var delta := Delta(target, dst);
      var b := AssembleBranch(link, delta);
      BranchFields(link, delta);
      StepBranch(b, start);
      Reaches26(target, dst);
      ExecOne(b, start);
      DstWrap(dst);
      u := Step(b, start).value;
    } else {
      var b := AssembleBr(17, link);
      var t := MovLoads(17, target, [b], start);
      LoadedFar(s, start, t, target, |MovWords(17, target)|);
      BrFields(17, link);
      StepBr(b, t);
      ExecOne(b, t);
      LinkEnd(dst, t.pc, |MovWords(17, target)|);
      u := Step(b, t).value;
    }
  }

  lemma LinkEnd(dst: u64, pc: u64, n: int)
    requires pc == Wrap(dst + 4 * n)
    ensures Wrap(pc + 4) == Wrap(dst + 4 * (n + 1))
  {
  }

  /** After the copy the register holds `v`; nothing else has changed. */
  ghost predicate Computes(words: seq<word>, s: State, dst: u64, rd: int, v: int)
  {
    match Exec(words, s.(pc := dst))
    case None => false
    case Some(u) => Loaded(s.(pc := dst), u, rd, v, |words|)
  }

  lemma AdrReach(target: u64, dst: u64)
    ensures Within(Delta(target, dst), 0x10_0000) ==> Wrap(dst + Ext21(Delta(target, dst) % 0x20_0000)) == target
    ensures Within(PageDelta(target, dst), 0x10_0000) ==>
              Wrap(dst - dst % 0x1000 + 0x1000 * Ext21(PageDelta(target, dst) % 0x20_0000)) == target - target % 0x1000
  {
    hide Wrap, Delta, PageDelta;
    PageReach(target, dst);
    DeltaLands(target, dst);
    Fits21(Delta(target, dst));
  }

  lemma Fits21(d: int)
    ensures Within(d, 0x10_0000) ==> Ext21(d % 0x20_0000) == d
  {
  }

  lemma PageReach(target: u64, dst: u64)
    ensures Within(PageDelta(target, dst), 0x10_0000) ==>
              Wrap(dst - dst % 0x1000 + 0x1000 * Ext21(PageDelta(target, dst) % 0x20_0000)) == target - target % 0x1000
  {
    var d := PageDelta(target, dst);
    if Within(d, 0x10_0000) {
      assert Ext21(d % 0x20_0000) == d;
      assert dst - dst % 0x1000 == 0x1000 * (dst / 0x1000) && target - target % 0x1000 == 0x1000 * (target / 0x1000);
    }
  }

  lemma AdrStep(kind: int, rd: int, delta: int, s: State)
    requires 0 <= kind < 2 && 0 <= rd < 32
    ensures var at := if kind == 0 then Wrap(s.pc + Ext21(delta % 0x20_0000))
                      else Wrap(s.pc - s.pc % 0x1000 + 0x1000 * Ext21(delta % 0x20_0000));
            Step(AssembleAdr(kind, rd, delta), s) == Some(Next(WithReg(s, rd, at)))
  {
    hide Step, AssembleAdr, Wrap, Ext21, Imm21, IsAdr, IsAdrp, Rd, WithReg, Next;
    AdrFields(kind, rd, delta);
    StepAdr(AssembleAdr(kind, rd, delta), s);
  }

  lemma SetLoads(s: State, rd: int, v: u64)
    ensures Loaded(s, Next(WithReg(s, rd, v)), rd, v, 1)
  {
  }

  lemma PairLoads(rd: int, page: u64, low: int, s: State)
    requires 0 <= rd < 32 && 0 <= low < 0x1000 && page % 0x1000 == 0 && page + low < TWO64
    ensures var t := Next(WithReg(s, rd, page));
            && Step(AssembleAdd32(rd, rd, low), t).Some?
            && if rd == 31 then Step(AssembleAdd32(rd, rd, low), t) == Some(Next(Next(s)).(sp := (s.sp + low) % TWO32))
               else Loaded(s, Step(AssembleAdd32(rd, rd, low), t).value, rd, (page + low) % TWO32, 2)
  {
    hide Step, AssembleAdd32, IsAddImm, Rd, Rn, Imm12, Bit31;
    AddFields(rd, rd, low);
    StepAdd32(AssembleAdd32(rd, rd, low), Next(WithReg(s, rd, page)));
  }

  lemma ExecTwo(a: word, b: word, s: State)
    requires Step(a, s).Some? && Step(a, s).value.pc == Wrap(s.pc + 4) && Step(b, Step(a, s).value).Some?
    ensures Exec([a, b], s) == Step(b, Step(a, s).value)
  {
    hide Step, Wrap;
    assert [a, b][1..] == [b];
    ExecOne(b, Step(a, s).value);
  }

  /** What ADR and ADRP compute at `src`. */
  lemma AdrMeaning(i: word, src: u64, s: State)
    requires IsAdr(i) || IsAdrp(i)
    ensures Step(i, s.(pc := src)) == Some(Next(WithReg(s.(pc := src), Rd(i), AdrTarget(i, src))))
  {
    hide Step, Adr19Imm, Ext21, Imm21, Rd, WithReg, Next;
    Imms(i);
    StepAdr(i, s.(pc := src));
    assert (src / 0x1000 + Adr19Imm(i)) * 0x1000 == src - src % 0x1000 + 0x1000 * Adr19Imm(i);
  }

  /** ADR and ADRP: the copy computes the same address in the same register, exactly unless it had to
      become ADRP and a 32-bit ADD for an address beyond 4 GB; or, where register 31 is named and the
      address is thrown away, unless that ADD changes the stack pointer, which it writes instead. */
  lemma AdrKept(i: word, src: u64, dst: u64, s: State)
    requires IsAdr(i) || IsAdrp(i)
    ensures Computes(AdrWords(i, src, dst), s, dst, Rd(i), AdrTarget(i, src)) <==>
            AdrForm(i, src, dst).Pair? ==>
              if Rd(i) == 31 then s.sp < TWO32 && AdrTarget(i, src) % 0x1000 == 0 else AdrTarget(i, src) < TWO32
  {
    hide Step, Exec, AssembleAdr, AssembleAdd32, MovWords, AdrTarget, Delta, PageDelta, Wrap, Loaded, Rd, Ext21,
      WithReg, Next, Within, IsAdr, IsAdrp;
    var target, rd, form, start := AdrTarget(i, src), Rd(i), AdrForm(i, src, dst), s.(pc := dst);
    AdrRange(i);
    AdrReach(target, dst);
    match form
    case Near =>
      AdrPages(i, src);
      var delta := if Bit31(i) == 0 then Delta(target, dst) else PageDelta(target, dst);
      AdrStep(Bit31(i), rd, delta, start);
      ExecOne(AssembleAdr(Bit31(i), rd, delta), start);
      SetLoads(start, rd, target);
    case Pair =>
      var page, low := target - target % 0x1000, target % 0x1000;
      PageFacts(target);
      AdrStep(1, rd, PageDelta(target, dst), start);
      PairLoads(rd, page, low, start);
      NextPc(start, rd, page);
      ExecTwo(AssembleAdr(1, rd, PageDelta(target, dst)), AssembleAdd32(rd, rd, low), start);
      var end := Step(AssembleAdd32(rd, rd, low), Next(WithReg(start, rd, page))).value;
      if rd == 31 { StackResult(start, end, low, target); } else { PairResult(start, end, rd, target); }
    case Far =>
      var t := MovLoads(rd, target, [], start);
      assert MovWords(rd, target) + [] == MovWords(rd, target);
      ExecNone(t);
  }

  lemma NextPc(s: State, rd: int, v: u64)
    ensures Next(WithReg(s, rd, v)).pc == Wrap(s.pc + 4)
  {
  }

  lemma PageFacts(target: u64)
    ensures 0 <= target - target % 0x1000 < TWO64 && (target - target % 0x1000) % 0x1000 == 0
  {
  }

  lemma AdrRange(i: word)
    ensures 0 <= Rd(i) < 32 && (IsAdr(i) ==> Bit31(i) == 0) && (IsAdrp(i) ==> Bit31(i) == 1)
  {
  }

  lemma AdrPages(i: word, src: u64)
    ensures Bit31(i) != 0 ==> AdrTarget(i, src) % 0x1000 == 0
  {
    hide Adr19Imm;
  }

  lemma PairResult(s: State, t: State, rd: int, target: u64)
    requires rd != 31 && Loaded(s, t, rd, target % TWO32, 2)
    ensures Loaded(s, t, rd, target, 2) <==> target < TWO32
  {
  }

  lemma StackResult(s: State, t: State, low: int, target: u64)
    requires 0 <= low < 0x1000 && low == target % 0x1000 && t == Next(Next(s)).(sp := (s.sp + low) % TWO32)
    ensures Loaded(s, t, 31, target, 2) <==> s.sp < TWO32 && low == 0
  {
  }

  /** In every state the copy computes what the original did exactly unless it had to become ADRP and a
      32-bit ADD for an address beyond 4 GB or for register 31. */
  lemma AdrKeptAlways(i: word, src: u64, dst: u64)
    requires IsAdr(i) || IsAdrp(i)
    ensures (forall s: State :: Computes(AdrWords(i, src, dst), s, dst, Rd(i), AdrTarget(i, src))) <==>
            !(AdrForm(i, src, dst).Pair? && (Rd(i) == 31 || AdrTarget(i, src) >= TWO32))
  {
    hide Computes, AdrWords, AdrForm, AdrTarget, Rd, IsAdr, IsAdrp;
    forall s: State
      ensures Computes(AdrWords(i, src, dst), s, dst, Rd(i), AdrTarget(i, src)) <==>
              AdrForm(i, src, dst).Pair? ==>
                if Rd(i) == 31 then s.sp < TWO32 && AdrTarget(i, src) % 0x1000 == 0 else AdrTarget(i, src) < TWO32
    {
      AdrKept(i, src, dst, s);
    }
    var high := State(0, map[], TWO32, Flags(false, false, false, false));
    assert Computes(AdrWords(i, src, dst), high, dst, Rd(i), AdrTarget(i, src)) <==>
           AdrForm(i, src, dst).Pair? ==> if Rd(i) == 31 then false else AdrTarget(i, src) < TWO32;
  }

  /** ADR XZR to the byte behind an address 1 MB away: the copy adds one to the stack pointer. */
  lemma ZeroRegisterSpoils(s: State)
    requires s.sp < TWO32 - 1
    ensures var i: word := 0x3000_001f;
            && IsAdr(i) && Rd(i) == 31 && AdrTarget(i, 0x20_0000) == 0x20_0001 && AdrForm(i, 0x20_0000, 0) == Pair
            && !Computes(AdrWords(i, 0x20_0000, 0), s, 0, 31, 0x20_0001)
  {
    hide Computes, AdrWords;
    AdrKept(0x3000_001f, 0x20_0000, 0, s);
  }

  // -------------------------------------------------------------------------------- literals

  /** The address an LDR (literal) word at `pc` reads. */
  function LdrAddress(i: word, pc: u64): u64 { Wrap(pc + 4 * Ext19(Imm19(i))) }

  /** Where CopyLdrLiteral keeps the instruction as it is, re-aimed. */
  predicate LdrNear(i: word, src: u64, dst: u64) { Within(Delta(BccTarget(i, src), dst), 0x20_0000) }

  /** The re-aimed LDR reads the same literal exactly when it lies within the 19-bit reach, half of what
      the range test admits. */
  lemma LdrNearIff(i: word, src: u64, dst: u64, size: int, fpNeon: int)
    requires src % 4 == 0 && dst % 4 == 0 && LdrNear(i, src, dst)
    ensures var target := BccTarget(i, src);
            LdrAddress(AssembleLdr(size, fpNeon, Rd(i), Delta(target, dst)), dst) == LdrAddress(i, src) <==>
            Within(Delta(target, dst), 0x10_0000)
  {
    hide BccTarget, AssembleLdr, Imm19;
    var target := BccTarget(i, src);
    TargetAligned(i, src, dst);
    LdrFields(size, fpNeon, Rd(i), Delta(target, dst));
    LdrReach(target, dst);
  }

  lemma LdrReach(target: u64, dst: u64)
    requires target % 4 == dst % 4 && Within(Delta(target, dst), 0x20_0000)
    ensures Wrap(dst + 4 * Ext19((Delta(target, dst) / 4) % 0x8_0000)) == target <==>
            Within(Delta(target, dst), 0x10_0000)
  {
    hide Delta, Wrap, Ext19, Within;
    var d := Delta(target, dst);
    DeltaLands(target, dst);
    LdrWraps(d);
    NoAlias(dst, d, 4 * Ext19((d / 4) % 0x8_0000));
  }

  lemma LdrWraps(d: int)
    requires Within(d, 0x20_0000) && d % 4 == 0
    ensures var e := 4 * Ext19((d / 4) % 0x8_0000);
            (e == d <==> Within(d, 0x10_0000)) && (e == d || e == d - 0x20_0000 || e == d + 0x20_0000)
  {
  }

  lemma NoAlias(at: u64, d: int, e: int)
    requires e == d || e == d - 0x20_0000 || e == d + 0x20_0000
    ensures Wrap(at + e) == Wrap(at + d) <==> e == d
  {
  }
}

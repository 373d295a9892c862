/** Hooks as layers over the original program: what commit, nesting and removal mean for the bytes
    of targets and pointers. */
module HookLayers {
  import opened Memory
  import opened X86Flow
  import opened X86Relocation
  import opened X86Trampoline

  /** One attached hook: the caller's pointer variable, the patched bytes `[target, target + cb)`
      with their saved contents, the trampoline and the detour; and the memory it was captured from
      with the run of instructions moved out of it. */
  datatype Hook = Hook(pointer: nat, target: u32, cb: nat, code: u32, detour: u32, saved: seq<byte>,
                       source: Mem, run: X86Trampoline.Run)

  /** One pending operation of a transaction, in the order commit applies them. */
  datatype Op = Attach(h: Hook) | Detach(h: Hook)

  ghost predicate HookOk(h: Hook, size: nat)
  {
    && |h.saved| == h.cb && h.cb >= SIZE_OF_JMP
    && h.target + h.cb <= size && h.pointer + 4 <= size
    && (h.pointer + 4 <= h.target || h.target + h.cb <= h.pointer)
  }

  predicate Covers(h: Hook, a: int)
  {
    h.target <= a < h.target + h.cb || h.pointer <= a < h.pointer + 4
  }

  /** Two hooks touch no byte in common. */
  ghost predicate Disjoint(g: Hook, h: Hook)
  {
    forall a :: !(Covers(g, a) && Covers(h, a))
  }

  function PatchBytes(h: Hook): (s: seq<byte>)
    requires h.cb >= SIZE_OF_JMP
    ensures |s| == h.cb
  {
    JmpBytes(h.target, h.detour) + Fill(h.cb - SIZE_OF_JMP, 0xcc)
  }

  /** Commit of an attach: jump and breakpoints over the target, the pointer to the trampoline. */
  function Patched(m: Mem, h: Hook): (r: Mem)
    requires h.cb >= SIZE_OF_JMP
    ensures |r| == |m|
  {
    Store32(Store(m, h.target, PatchBytes(h)), h.pointer, h.code)
  }

  /** Commit of a detach: the saved bytes back, the pointer to the target. */
  function Restored(m: Mem, h: Hook): (r: Mem)
    ensures |r| == |m|
  {
    Store32(Store(m, h.target, h.saved), h.pointer, h.target)
  }

  function PatchByte(h: Hook, a: int): byte
    requires h.cb >= SIZE_OF_JMP
  {
    if h.pointer <= a < h.pointer + 4 then Bytes32(h.code)[a - h.pointer]
    else if h.target <= a < h.target + h.cb then PatchBytes(h)[a - h.target]
    else 0
  }

  function SavedByte(h: Hook, a: int): byte
  {
    if h.pointer <= a < h.pointer + 4 then Bytes32(h.target)[a - h.pointer] else At(h.saved, a - h.target)
  }

  /** The byte at `a` once `hooks` have been laid over `base`, oldest first. */
  ghost function Layer(base: Mem, hooks: seq<Hook>, a: int): byte
    decreases |hooks|
  {
    if hooks == [] then At(base, a)
    else
      var h := hooks[|hooks| - 1];
      if Covers(h, a) && h.cb >= SIZE_OF_JMP then PatchByte(h, a) else Layer(base, hooks[..|hooks| - 1], a)
  }

  /** Every hook saved exactly the layer beneath it. */
  ghost predicate SavesBelow(base: Mem, below: seq<Hook>, h: Hook)
  {
    forall a :: Covers(h, a) ==> SavedByte(h, a) == Layer(base, below, a)
  }

  /** The program `m` is `base` with `hooks` laid over it; `program` are the addresses that matter
      (everything but trampoline memory). */
  ghost predicate Consistent(base: Mem, m: Mem, hooks: seq<Hook>, program: iset<int>)
  {
    && |base| == |m|
    && (forall i :: 0 <= i < |hooks| ==> HookOk(hooks[i], |m|))
    && (forall i, a :: 0 <= i < |hooks| && Covers(hooks[i], a) ==> a in program)
    && (forall i :: 0 <= i < |hooks| ==> SavesBelow(base, hooks[..i], hooks[i]))
    && (forall a :: a in program && 0 <= a < |m| ==> m[a] == Layer(base, hooks, a))
  }

  ghost function RemoveAt(hooks: seq<Hook>, i: nat): seq<Hook>
    requires i < |hooks|
  {
    hooks[..i] + hooks[i + 1..]
  }

  /** No later hook touches a byte of hook `i`: it is on a target of its own, or the innermost one. */
  ghost predicate Topmost(hooks: seq<Hook>, i: nat)
    requires i < |hooks|
  {
    forall j :: i < j < |hooks| ==> Disjoint(hooks[j], hooks[i])
  }

  predicate InPointer(h: Hook, a: int) { h.pointer <= a < h.pointer + 4 }

  /** An attach may be committed: its target bytes were saved and its pointer variable is not in
      use by (or inside the target of) a hook already there. */
  ghost predicate MayAttach(m: Mem, hooks: seq<Hook>, h: Hook, program: iset<int>)
  {
    && HookOk(h, |m|)
    && (forall a :: Covers(h, a) ==> a in program && (InPointer(h, a) || SavedByte(h, a) == At(m, a)))
    && (forall i, a :: 0 <= i < |hooks| && InPointer(h, a) ==> !Covers(hooks[i], a))
  }

  /** The program an operation's removal leads back to: an attach makes its pointer variable hold
      the function it resolved to. */
  function Rebased(base: Mem, op: Op): (r: Mem)
    ensures |r| == |base|
  {
    match op
    case Attach(h) => Store32(base, h.pointer, h.target)
    case Detach(_) => base
  }

  ghost predicate MayDetach(hooks: seq<Hook>, h: Hook)
  {
    exists i :: 0 <= i < |hooks| && hooks[i] == h && Topmost(hooks, i)
  }

  ghost predicate Legal(m: Mem, hooks: seq<Hook>, op: Op, program: iset<int>)
  {
    match op
    case Attach(h) => MayAttach(m, hooks, h, program)
    case Detach(h) => MayDetach(hooks, h)
  }

  function Apply(m: Mem, op: Op): (r: Mem)
    ensures |r| == |m|
  {
    match op
    case Attach(h) => if h.cb >= SIZE_OF_JMP then Patched(m, h) else m
    case Detach(h) => Restored(m, h)
  }

  ghost function HooksAfter(hooks: seq<Hook>, op: Op): seq<Hook>
  {
    match op
    case Attach(h) => hooks + [h]
    case Detach(h) =>
      if MayDetach(hooks, h) then
        var i :| 0 <= i < |hooks| && hooks[i] == h && Topmost(hooks, i);
        RemoveAt(hooks, i)
      else hooks
  }

  lemma {:induction false} LayerSkip(base: Mem, hooks: seq<Hook>, i: nat, a: int)
    requires i < |hooks| && !Covers(hooks[i], a)
    ensures Layer(base, RemoveAt(hooks, i), a) == Layer(base, hooks, a)
    decreases |hooks|
  {
    var n := |hooks| - 1;
    if i == n {
      assert RemoveAt(hooks, i) == hooks[..n];
    } else {
      assert RemoveAt(hooks, i)[..n - 1] == RemoveAt(hooks[..n], i);
      LayerSkip(base, hooks[..n], i, a);
    }
  }

  lemma {:induction false} LayerTop(base: Mem, hooks: seq<Hook>, i: nat, a: int)
    requires i < |hooks| && Covers(hooks[i], a) && hooks[i].cb >= SIZE_OF_JMP
    requires forall j :: i < j < |hooks| ==> !Covers(hooks[j], a)
    ensures Layer(base, hooks, a) == PatchByte(hooks[i], a)
    ensures Layer(base, RemoveAt(hooks, i), a) == Layer(base, hooks[..i], a)
    decreases |hooks|
  {
    var n := |hooks| - 1;
    if i == n {
      assert RemoveAt(hooks, i) == hooks[..n];
    } else {
      assert RemoveAt(hooks, i)[..n - 1] == RemoveAt(hooks[..n], i);
      assert hooks[..n][..i] == hooks[..i];
      LayerTop(base, hooks[..n], i, a);
    }
  }

  lemma PatchedBytes(m: Mem, h: Hook, a: int)
    requires HookOk(h, |m|) && 0 <= a < |m|
    ensures Patched(m, h)[a] == if Covers(h, a) then PatchByte(h, a) else m[a]
    ensures Restored(m, h)[a] == if Covers(h, a) then SavedByte(h, a) else m[a]
  {
  }

  lemma {:induction false} LayerBase(base: Mem, other: Mem, hooks: seq<Hook>, a: int)
    requires At(base, a) == At(other, a)
    ensures Layer(base, hooks, a) == Layer(other, hooks, a)
    decreases |hooks|
  {
    if hooks != [] { LayerBase(base, other, hooks[..|hooks| - 1], a); }
  }

  lemma {:induction false} LayerUncovered(base: Mem, hooks: seq<Hook>, a: int)
    requires forall i :: 0 <= i < |hooks| ==> !Covers(hooks[i], a)
    ensures Layer(base, hooks, a) == At(base, a)
    decreases |hooks|
  {
    if hooks != [] { LayerUncovered(base, hooks[..|hooks| - 1], a); }
  }

  lemma AttachSaves(base: Mem, m: Mem, hooks: seq<Hook>, h: Hook, program: iset<int>, i: nat)
    requires Consistent(base, m, hooks, program) && MayAttach(m, hooks, h, program) && i <= |hooks|
    ensures i < |hooks| ==> SavesBelow(Store32(base, h.pointer, h.target), hooks[..i], hooks[i])
    ensures i == |hooks| ==> SavesBelow(Store32(base, h.pointer, h.target), hooks, h)
  {
    var base' := Store32(base, h.pointer, h.target);
    if i < |hooks| {
      assert SavesBelow(base, hooks[..i], hooks[i]);
      forall a | Covers(hooks[i], a) ensures SavedByte(hooks[i], a) == Layer(base', hooks[..i], a) {
        assert !InPointer(h, a);
        LayerBase(base, base', hooks[..i], a);
      }
    } else {
      forall a | Covers(h, a) ensures SavedByte(h, a) == Layer(base', hooks, a) {
        if InPointer(h, a) {
          LayerUncovered(base', hooks, a);
        } else {
          LayerBase(base, base', hooks, a);
        }
      }
    }
  }

  lemma AttachConsistent(base: Mem, m: Mem, hooks: seq<Hook>, h: Hook, program: iset<int>)
    requires Consistent(base, m, hooks, program) && MayAttach(m, hooks, h, program)
    ensures Consistent(Store32(base, h.pointer, h.target), Patched(m, h), hooks + [h], program)
  {
    var base' := Store32(base, h.pointer, h.target);
    var after := hooks + [h];
    assert after[..|hooks|] == hooks;
    forall i | 0 <= i < |after| ensures SavesBelow(base', after[..i], after[i]) {
      AttachSaves(base, m, hooks, h, program, i);
      assert i < |hooks| ==> after[..i] == hooks[..i];
    }
    forall a | a in program && 0 <= a < |m| ensures Patched(m, h)[a] == Layer(base', after, a) {
      PatchedBytes(m, h, a);
      if !Covers(h, a) { LayerBase(base, base', hooks, a); }
    }
  }

  lemma DetachSaves(base: Mem, hooks: seq<Hook>, i: nat, j: nat)
    requires i < j < |hooks| && SavesBelow(base, hooks[..j], hooks[j]) && Disjoint(hooks[j], hooks[i])
    ensures SavesBelow(base, RemoveAt(hooks, i)[..j - 1], RemoveAt(hooks, i)[j - 1])
  {
    assert RemoveAt(hooks, i)[..j - 1] == RemoveAt(hooks[..j], i);
    forall a | Covers(hooks[j], a)
      ensures SavedByte(hooks[j], a) == Layer(base, RemoveAt(hooks[..j], i), a)
    {
      LayerSkip(base, hooks[..j], i, a);
    }
  }

  lemma DetachConsistent(base: Mem, m: Mem, hooks: seq<Hook>, i: nat, program: iset<int>)
    requires Consistent(base, m, hooks, program) && i < |hooks| && Topmost(hooks, i)
    ensures Consistent(base, Restored(m, hooks[i]), RemoveAt(hooks, i), program)
  {
    var h := hooks[i];
    var after := RemoveAt(hooks, i);
    forall k | 0 <= k < |after| ensures SavesBelow(base, after[..k], after[k]) {
      if k < i {
        assert after[..k] == hooks[..k] && SavesBelow(base, hooks[..k], hooks[k]);
      } else {
        assert SavesBelow(base, hooks[..k + 1], hooks[k + 1]);
        DetachSaves(base, hooks, i, k + 1);
      }
    }
    forall a | a in program && 0 <= a < |m| ensures Restored(m, h)[a] == Layer(base, after, a) {
      PatchedBytes(m, h, a);
      if Covers(h, a) {
        assert SavesBelow(base, hooks[..i], hooks[i]);
        LayerTop(base, hooks, i, a);
      } else {
        LayerSkip(base, hooks, i, a);
      }
    }
  }

  /** Every committed operation keeps the layering. */
  lemma StepConsistent(base: Mem, m: Mem, hooks: seq<Hook>, op: Op, program: iset<int>)
    requires Consistent(base, m, hooks, program) && Legal(m, hooks, op, program)
    ensures Consistent(Rebased(base, op), Apply(m, op), HooksAfter(hooks, op), program)
  {
    match op
    case Attach(h) => AttachConsistent(base, m, hooks, h, program);
    case Detach(h) =>
      var i :| 0 <= i < |hooks| && hooks[i] == h && Topmost(hooks, i) && HooksAfter(hooks, op) == RemoveAt(hooks, i);
      DetachConsistent(base, m, hooks, i, program);
  }

  // ------------------------------------------------------------------------------ whole runs

  function Run(m: Mem, ops: seq<Op>): (r: Mem)
    ensures |r| == |m|
    decreases |ops|
  {
    if ops == [] then m else Run(Apply(m, ops[0]), ops[1..])
  }

  function BaseRun(base: Mem, ops: seq<Op>): (r: Mem)
    ensures |r| == |base|
    decreases |ops|
  {
    if ops == [] then base else BaseRun(Rebased(base, ops[0]), ops[1..])
  }

  ghost function HooksRun(hooks: seq<Hook>, ops: seq<Op>): seq<Hook>
    decreases |ops|
  {
    if ops == [] then hooks else HooksRun(HooksAfter(hooks, ops[0]), ops[1..])
  }

  ghost predicate LegalRun(m: Mem, hooks: seq<Hook>, ops: seq<Op>, program: iset<int>)
    decreases |ops|
  {
    ops != [] ==>
      && Legal(m, hooks, ops[0], program)
      && LegalRun(Apply(m, ops[0]), HooksAfter(hooks, ops[0]), ops[1..], program)
  }

  lemma {:induction false} RunConsistent(base: Mem, m: Mem, hooks: seq<Hook>, ops: seq<Op>, program: iset<int>)
    requires Consistent(base, m, hooks, program) && LegalRun(m, hooks, ops, program)
    ensures Consistent(BaseRun(base, ops), Run(m, ops), HooksRun(hooks, ops), program)
    decreases |ops|
  {
    if ops != [] {
      StepConsistent(base, m, hooks, ops[0], program);
      RunConsistent(Rebased(base, ops[0]), Apply(m, ops[0]), HooksAfter(hooks, ops[0]), ops[1..], program);
    }
  }

  /** Every attach of the run finds its pointer variable holding the function itself, not a jump
      stub in front of it. */
  ghost predicate PointersDirect(m: Mem, ops: seq<Op>)
    decreases |ops|
  {
    ops != [] ==>
      && (ops[0].Attach? ==> Read32(m, ops[0].h.pointer) == ops[0].h.target)
      && PointersDirect(Apply(m, ops[0]), ops[1..])
  }

  lemma {:induction false} DirectBase(base: Mem, m: Mem, hooks: seq<Hook>, ops: seq<Op>, program: iset<int>)
    requires Consistent(base, m, hooks, program) && LegalRun(m, hooks, ops, program) && PointersDirect(m, ops)
    ensures forall a :: a in program && 0 <= a < |m| ==> BaseRun(base, ops)[a] == base[a]
    decreases |ops|
  {
    if ops != [] {
      StepConsistent(base, m, hooks, ops[0], program);
      DirectBase(Rebased(base, ops[0]), Apply(m, ops[0]), HooksAfter(hooks, ops[0]), ops[1..], program);
      forall a | a in program && 0 <= a < |m| ensures Rebased(base, ops[0])[a] == base[a] {
        DirectStep(base, m, hooks, ops[0], program, a);
      }
    }
  }

  lemma DirectStep(base: Mem, m: Mem, hooks: seq<Hook>, op: Op, program: iset<int>, a: int)
    requires Consistent(base, m, hooks, program) && Legal(m, hooks, op, program) && a in program && 0 <= a < |m|
    requires op.Attach? ==> Read32(m, op.h.pointer) == op.h.target
    ensures Rebased(base, op)[a] == base[a]
  {
    if op.Attach? && InPointer(op.h, a) {
      LayerUncovered(base, hooks, a);
      Bytes32OfRead(m, op.h.pointer);
    }
  }

  /** After any run of attaches and detaches, on separate targets or nested on one, that leaves no
      hook attached, every byte of the program is what it was, except that each pointer variable
      attached through holds the function it resolved to. */
  lemma DetachingEverythingRestores(m: Mem, ops: seq<Op>, program: iset<int>)
    requires LegalRun(m, [], ops, program) && HooksRun([], ops) == []
    ensures forall a :: a in program && 0 <= a < |m| ==> Run(m, ops)[a] == BaseRun(m, ops)[a]
    ensures PointersDirect(m, ops) ==> forall a :: a in program && 0 <= a < |m| ==> Run(m, ops)[a] == m[a]
  {
    RunConsistent(m, m, [], ops, program);
    if PointersDirect(m, ops) { DirectBase(m, m, [], ops, program); }
  }

  /** One attach and its detach give the pointer variable back exactly when it held the function
      itself; through a jump stub it comes back holding the stub's destination. */
  lemma PointerRestoredIff(m: Mem, h: Hook, program: iset<int>)
    requires MayAttach(m, [], h, program)
    ensures Read32(Restored(Patched(m, h), h), h.pointer) == h.target
    ensures (forall a :: InPointer(h, a) ==> Restored(Patched(m, h), h)[a] == m[a]) <==>
            Read32(m, h.pointer) == h.target
    ensures forall a :: h.target <= a < h.target + h.cb ==> Restored(Patched(m, h), h)[a] == m[a]
  {
    hide Patched, Restored, Covers, Bytes32, Read32, PatchByte;
    var n := Restored(Patched(m, h), h);
    RestoredBytes(m, h);
    Bytes32OfRead(m, h.pointer);
    PointerBytes(m, n, h);
  }

  lemma RestoredBytes(m: Mem, h: Hook)
    requires HookOk(h, |m|)
    requires forall a :: Covers(h, a) ==> InPointer(h, a) || SavedByte(h, a) == At(m, a)
    ensures var n := Restored(Patched(m, h), h);
            && |n| == |m| && Read32(n, h.pointer) == h.target
            && (forall a :: InPointer(h, a) ==> n[a] == Bytes32(h.target)[a - h.pointer])
            && (forall a :: h.target <= a < h.target + h.cb ==> n[a] == m[a])
  {
    hide Bytes32, Read32, Patched;
    ReadStored(Store(Patched(m, h), h.target, h.saved), h.pointer, h.target);
    forall a | h.target <= a < h.target + h.cb ensures Restored(Patched(m, h), h)[a] == m[a] {
      assert Covers(h, a) && !InPointer(h, a);
    }
  }

  lemma PointerBytes(m: Mem, n: Mem, h: Hook)
    requires |m| == |n| && h.pointer + 4 <= |m|
    requires forall a :: InPointer(h, a) ==> n[a] == Bytes32(h.target)[a - h.pointer]
    requires Bytes32(Read32(m, h.pointer)) ==
             [At(m, h.pointer), At(m, h.pointer + 1), At(m, h.pointer + 2), At(m, h.pointer + 3)]
    ensures (forall a :: InPointer(h, a) ==> n[a] == m[a]) <==> Read32(m, h.pointer) == h.target
  {
    Read32OfBytes(h.target);
    if forall a :: InPointer(h, a) ==> n[a] == m[a] {
      var p := h.pointer;
      assert InPointer(h, p) && InPointer(h, p + 1) && InPointer(h, p + 2) && InPointer(h, p + 3);
      assert Read32(m, p) == Read32(Bytes32(h.target), 0);
    }
  }

  /** While a hook is attached and no later one lies over it, its target jumps to the detour and its
      pointer holds the trampoline. */
  lemma AttachedHookIsLive(base: Mem, m: Mem, hooks: seq<Hook>, i: nat, program: iset<int>)
    requires Consistent(base, m, hooks, program) && i < |hooks| && Topmost(hooks, i)
    ensures FlowAt(m, hooks[i].target) == Relative(JumpKind, hooks[i].target + SIZE_OF_JMP, hooks[i].detour)
    ensures Read32(m, hooks[i].pointer) == hooks[i].code
  {
    hide FlowAt, JmpBytes, Bytes32, Read32, Layer, PatchByte;
    var h := hooks[i];
    forall a | Covers(h, a) ensures m[a] == PatchByte(h, a) {
      LayerTop(base, hooks, i, a);
      assert m[a] == Layer(base, hooks, a);
    }
    PatchInPlace(m, h);
    JmpLands(m, h.target, h.detour);
    ReadBytes(m, h.pointer, h.code);
  }

  lemma PatchInPlace(m: Mem, h: Hook)
    requires HookOk(h, |m|) && forall a :: Covers(h, a) ==> m[a] == PatchByte(h, a)
    ensures Holds(m, h.target, JmpBytes(h.target, h.detour))
    ensures m[h.pointer..h.pointer + 4] == Bytes32(h.code)
  {
    hide JmpBytes, Bytes32;
    var jmp := JmpBytes(h.target, h.detour);
    forall k | 0 <= k < 5 ensures m[h.target + k] == jmp[k] {
      assert Covers(h, h.target + k);
    }
    assert m[h.target..h.target + |jmp|] == jmp;
    forall k | 0 <= k < 4 ensures m[h.pointer + k] == Bytes32(h.code)[k] {
      assert Covers(h, h.pointer + k);
    }
  }

  // ------------------------------------------------------------------------------ transactions

  /** The operations of one transaction touch no byte in common. */
  ghost predicate PairwiseDisjoint(ops: seq<Op>)
  {
    forall i, j :: 0 <= i < j < |ops| ==> Disjoint(ops[i].h, ops[j].h)
  }

  /** Operations are checked and captured when they are requested, before any of them is applied. */
  ghost predicate CapturedBefore(m: Mem, hooks: seq<Hook>, ops: seq<Op>, program: iset<int>)
  {
    forall i :: 0 <= i < |ops| ==> Legal(m, hooks, ops[i], program)
  }

  lemma LegalAfter(m: Mem, hooks: seq<Hook>, first: Op, op: Op, program: iset<int>)
    requires Legal(m, hooks, first, program) && Legal(m, hooks, op, program) && Disjoint(first.h, op.h)
    requires forall i :: 0 <= i < |hooks| ==> HookOk(hooks[i], |m|)
    ensures Legal(Apply(m, first), HooksAfter(hooks, first), op, program)
  {
    match op
    case Attach(h) =>
      assert HookOk(first.h, |m|);
      forall a | Covers(h, a) && !InPointer(h, a) ensures SavedByte(h, a) == At(Apply(m, first), a) {
        PatchedBytes(m, first.h, a);
      }
      MembersAfter(hooks, first);
    case Detach(h) =>
      var i :| 0 <= i < |hooks| && hooks[i] == h && Topmost(hooks, i);
      StillDetachable(hooks, first, i);
  }

  lemma MembersAfter(hooks: seq<Hook>, op: Op)
    ensures var after := HooksAfter(hooks, op);
            forall i :: 0 <= i < |after| ==> after[i] in hooks || (op.Attach? && after[i] == op.h)
  {
  }

  lemma RemovedIndex(hooks: seq<Hook>, k: nat, j: nat)
    requires k < |hooks| && j < |hooks| - 1
    ensures |RemoveAt(hooks, k)| == |hooks| - 1
    ensures RemoveAt(hooks, k)[j] == hooks[if j < k then j else j + 1]
  {
  }

  lemma StillDetachable(hooks: seq<Hook>, first: Op, i: nat)
    requires i < |hooks| && Topmost(hooks, i) && Disjoint(first.h, hooks[i])
    requires hooks[i].cb >= SIZE_OF_JMP
    requires first.Detach? ==> MayDetach(hooks, first.h)
    ensures MayDetach(HooksAfter(hooks, first), hooks[i])
  {
    var h := hooks[i];
    var after := HooksAfter(hooks, first);
    if first.Attach? {
      assert after[i] == h && Topmost(after, i);
    } else {
      var k :| 0 <= k < |hooks| && hooks[k] == first.h && Topmost(hooks, k) && after == RemoveAt(hooks, k);
      assert k != i by { assert Covers(h, h.target); }
      var i' := if k < i then i - 1 else i;
      RemovedIndex(hooks, k, i');
      assert after[i'] == h;
      forall j | i' < j < |after| ensures Disjoint(after[j], after[i']) {
        RemovedIndex(hooks, k, j);
      }
      assert Topmost(after, i');
    }
  }

  /** Operations captured together and pairwise disjoint may be committed one after the other. */
  lemma {:induction false} TransactionLegal(base: Mem, m: Mem, hooks: seq<Hook>, ops: seq<Op>, program: iset<int>)
    requires Consistent(base, m, hooks, program)
    requires CapturedBefore(m, hooks, ops, program) && PairwiseDisjoint(ops)
    ensures LegalRun(m, hooks, ops, program)
    decreases |ops|
  {
    if ops != [] {
      var rest := ops[1..];
      forall i | 0 <= i < |rest| ensures Legal(Apply(m, ops[0]), HooksAfter(hooks, ops[0]), rest[i], program) {
        LegalAfter(m, hooks, ops[0], ops[i + 1], program);
      }
      StepConsistent(base, m, hooks, ops[0], program);
      TransactionLegal(Rebased(base, ops[0]), Apply(m, ops[0]), HooksAfter(hooks, ops[0]), rest, program);
    }
  }

  /** A committed transaction keeps the layering. */
  lemma TransactionConsistent(base: Mem, m: Mem, hooks: seq<Hook>, ops: seq<Op>, program: iset<int>)
    requires Consistent(base, m, hooks, program)
    requires CapturedBefore(m, hooks, ops, program) && PairwiseDisjoint(ops)
    ensures Consistent(BaseRun(base, ops), Run(m, ops), HooksRun(hooks, ops), program)
  {
    TransactionLegal(base, m, hooks, ops, program);
    RunConsistent(base, m, hooks, ops, program);
  }

  /** `a` is a byte of a pointer variable that one of the operations attaches through a jump stub. */
  ghost predicate StubByte(m: Mem, ops: seq<Op>, a: int)
  {
    exists i :: 0 <= i < |ops| && ops[i].Attach? && InPointer(ops[i].h, a)
                && Read32(m, ops[i].h.pointer) != ops[i].h.target
  }

  /** A transaction leaves what removal leads back to as it was, but for those bytes. */
  lemma BaseKept(base: Mem, m: Mem, hooks: seq<Hook>, ops: seq<Op>, program: iset<int>, a: int)
    requires Consistent(base, m, hooks, program) && CapturedBefore(m, hooks, ops, program)
    requires a in program && 0 <= a < |m| && !StubByte(m, ops, a)
    ensures BaseRun(base, ops)[a] == base[a]
  {
    hide Bytes32, Read32, BaseRun, SavesBelow, MayDetach;
    forall i | 0 <= i < |ops| && ops[i].Attach? && InPointer(ops[i].h, a)
      ensures ops[i].h.pointer + 4 <= |base| && Bytes32(ops[i].h.target)[a - ops[i].h.pointer] == base[a]
    {
      var h := ops[i].h;
      assert Legal(m, hooks, ops[i], program);
      LayerUncovered(base, hooks, a);
      Bytes32OfRead(m, h.pointer);
    }
    BaseRunByte(base, ops, a);
  }

  lemma {:induction false} BaseRunByte(base: Mem, ops: seq<Op>, a: int)
    requires 0 <= a < |base|
    requires forall i :: 0 <= i < |ops| && ops[i].Attach? && InPointer(ops[i].h, a) ==>
                           ops[i].h.pointer + 4 <= |base| && Bytes32(ops[i].h.target)[a - ops[i].h.pointer] == base[a]
    ensures BaseRun(base, ops)[a] == base[a]
    decreases |ops|
  {
    hide Bytes32;
    if ops != [] {
      assert Rebased(base, ops[0])[a] == base[a];
      forall i | 0 <= i < |ops| - 1 && ops[1..][i].Attach? && InPointer(ops[1..][i].h, a)
        ensures ops[1..][i].h.pointer + 4 <= |base|
                && Bytes32(ops[1..][i].h.target)[a - ops[1..][i].h.pointer] == base[a]
      {
        assert ops[1..][i] == ops[i + 1];
      }
      BaseRunByte(Rebased(base, ops[0]), ops[1..], a);
    }
  }

  /** Two attaches to one target requested in the same transaction are not chained: the second may
      follow the first only if patching changed nothing, and removing the second uncovers the
      original code, so the first hook is gone as well. */
  lemma UnchainedPair(m: Mem, g: Hook, h: Hook, program: iset<int>)
    requires MayAttach(m, [], g, program) && MayAttach(m, [], h, program)
    requires g.target == h.target && g.cb == h.cb && forall a :: InPointer(h, a) ==> !Covers(g, a)
    requires forall a :: InPointer(g, a) ==> !Covers(h, a)
    ensures Legal(Apply(m, Attach(g)), [g], Attach(h), program) <==>
            forall a :: g.target <= a < g.target + g.cb ==> PatchByte(g, a) == m[a]
    ensures forall a :: g.target <= a < g.target + g.cb ==> Restored(Run(m, [Attach(g), Attach(h)]), h)[a] == m[a]
  {
    hide Patched, Restored, PatchByte, SavedByte;
    var n := Apply(m, Attach(g));
    forall a | 0 <= a < |m| ensures n[a] == if Covers(g, a) then PatchByte(g, a) else m[a] { PatchedBytes(m, g, a); }
    var p := Apply(n, Attach(h));
    assert [Attach(g), Attach(h)][1..] == [Attach(h)] && [Attach(h)][1..] == [];
    assert Run(m, [Attach(g), Attach(h)]) == Run(n, [Attach(h)]) == Run(p, []) == p;
    forall a | g.target <= a < g.target + g.cb
      ensures Restored(p, h)[a] == m[a] && (SavedByte(h, a) == At(n, a) <==> PatchByte(g, a) == m[a]) {
      PatchedBytes(p, h, a);
      assert Covers(h, a) && Covers(g, a) && !InPointer(h, a);
    }
    if forall a :: g.target <= a < g.target + g.cb ==> PatchByte(g, a) == m[a] {
      forall a | Covers(h, a) ensures a in program && (InPointer(h, a) || SavedByte(h, a) == At(n, a)) { }
    }
    if Legal(n, [g], Attach(h), program) {
      forall a | g.target <= a < g.target + g.cb ensures PatchByte(g, a) == m[a] {
        assert Covers(h, a) && !InPointer(h, a);
      }
    }
  }
}

/** The import block injected into a new process (UPDATE_IMPORTS_XX): descriptors for the added DLLs in
    front of the old ones, two pairs of thunks for each, and the DLL names. */
module UpdateImports {
  import opened Options
  import opened Memory
  import opened ImportEmit
  import opened ImportRead
  import opened ImportWriter

  const STRSAFE_MAX := 0x7fff_ffff

  // -------------------------------------------------------------------------------- the sizes

  function PadToDword(n: int): int { (n + 3) / 4 * 4 }

  function PadToDwordPtr(n: int): int { (n + 7) / 8 * 8 }

  /** A 32-bit sum or product, or an overflow. */
  function Checked(n: nat): Option<u32> { if n < SPACE then Some(n) else None }

  function NameSize(dll: seq<byte>): nat { PadToDword(|dll| + 1) }

  function NamesSize(dlls: seq<seq<byte>>): nat
  {
    if dlls == [] then 0 else NamesSize(dlls[..|dlls| - 1]) + NameSize(dlls[|dlls| - 1])
  }

  function TableSize(dlls: nat, oldDlls: nat): nat { 20 * dlls + 20 * oldDlls }

  /** Offset of the names, in unbounded arithmetic. */
  function NamesAt(dlls: nat, oldDlls: nat,
                   thunk: nat): nat { PadToDwordPtr(TableSize(dlls, oldDlls)) + 4 * thunk * dlls }

  /** Size of the whole block, in unbounded arithmetic. */
  function BlockSize(dlls: seq<seq<byte>>, oldDlls: nat,
                     thunk: nat): nat { NamesAt(|dlls|, oldDlls, thunk) + NamesSize(dlls) }

  lemma {:induction false} NamesPrefix(dlls: seq<seq<byte>>, n: nat)
    requires n <= |dlls|
    ensures NamesSize(dlls[..n]) <= NamesSize(dlls)
    decreases |dlls|
  {
    hide NameSize;
    if n < |dlls| {
      assert dlls[..|dlls| - 1][..n] == dlls[..n];
      NamesPrefix(dlls[..|dlls| - 1], n);
    } else {
      assert dlls[..n] == dlls;
    }
  }

  /** The names behind one another from `start` on. */
  method SumNames(dlls: seq<seq<byte>>, start: u32) returns (end: Option<u32>)
    ensures end == Checked(start + NamesSize(dlls))
  {
    hide NamesSize, NameSize;
    var cbNew: nat := start;
    var n := 0;
    NoNames(dlls);
    while n < |dlls|
      invariant 0 <= n <= |dlls| && cbNew == start + NamesSize(dlls[..n]) && cbNew < SPACE
    {
      NextName(dlls, n);
      NamesPrefix(dlls, n + 1);
      var next := Checked(cbNew + NameSize(dlls[n]));
      if next == None { return None; }
      cbNew := next.value;
      n := n + 1;
    }
    assert dlls[..n] == dlls;
    end := Some(cbNew);
  }

  lemma PadFacts(n: nat)
    requires n < SPACE
    ensures n <= PadToDwordPtr(n) < n + 8
    ensures PadToDwordPtr(n) % SPACE < n <==> PadToDwordPtr(n) >= SPACE
    ensures PadToDwordPtr(n) < SPACE ==> PadToDwordPtr(n) % SPACE == PadToDwordPtr(n)
  {
  }

  /** The checked 32-bit computation fails exactly when the block would be 4 GB or larger; otherwise no
      sum has wrapped. */
  method ComputeSizes(dlls: seq<seq<byte>>, nOldDlls: nat, thunk: nat) returns (sizes: Option<(nat, nat, nat)>)
    requires 20 * nOldDlls < SPACE && (thunk == 4 || thunk == 8) && |dlls| < SPACE
    ensures sizes.Some? <==> BlockSize(dlls, nOldDlls, thunk) < SPACE
    ensures sizes.Some? ==>
              sizes.value ==
              (PadToDwordPtr(TableSize(|dlls|, nOldDlls)), NamesAt(|dlls|, nOldDlls, thunk),
               BlockSize(dlls, nOldDlls, thunk))
  {
    hide NamesSize, PadToDwordPtr;
    var obRem := Checked(20 * |dlls|);
    if obRem == None { Overflow(dlls, nOldDlls, thunk); return None; }
    var obOld := Checked(obRem.value + 20 * nOldDlls);
    if obOld == None { Overflow(dlls, nOldDlls, thunk); return None; }
    PadFacts(obOld.value);
    var obTab := PadToDwordPtr(obOld.value) % SPACE;
    if obTab < obOld.value { return None; }
    var stSize := Checked(4 * thunk * |dlls|);
    if stSize == None { return None; }
    var obDll := Checked(obTab + stSize.value);
    if obDll == None { return None; }
    var cbNew := SumNames(dlls, obDll.value);
    if cbNew == None { return None; }
    sizes := Some((obTab, obDll.value, cbNew.value));
  }

  lemma Overflow(dlls: seq<seq<byte>>, nOldDlls: nat, thunk: nat)
    requires thunk == 4 || thunk == 8
    ensures BlockSize(dlls, nOldDlls, thunk) >= TableSize(|dlls|, nOldDlls)
  {
  }

  lemma NoNames(dlls: seq<seq<byte>>)
    ensures NamesSize(dlls[..0]) == 0
  {
  }

  lemma NextName(dlls: seq<seq<byte>>, n: nat)
    requires n < |dlls|
    ensures NamesSize(dlls[..n + 1]) == NamesSize(dlls[..n]) + NameSize(dlls[n])
  {
    assert dlls[..n + 1][..n] == dlls[..n];
  }

  // ------------------------------------------------------------------------ the size in a name

  const MARK: byte := 0x3f // '?'

  /** Index of the first pair of question marks; `|s|` if there is none. */
  function FirstPair(s: seq<byte>): (k: nat)
    ensures k <= |s| && (k < |s| ==> k + 1 < |s| && s[k] == s[k + 1] == MARK)
    ensures forall i :: 0 <= i < k && i + 1 < |s| ==> !(s[i] == MARK && s[i + 1] == MARK)
  {
    if |s| < 2 then |s|
    else if s[0] == MARK && s[1] == MARK then 0
    else 1 + FirstPair(s[1..])
  }

  /** A name with the two digits of the pointer size in place of its first pair of question marks. */
  function Sized(s: seq<byte>, digits: seq<byte>): (r: seq<byte>)
    requires |digits| == 2
    ensures |r| == |s|
  {
    var k := FirstPair(s);
    if k < |s| then s[k := digits[0]][k + 1 := digits[1]] else s
  }

  lemma PairIs(s: seq<byte>, k: nat)
    requires k + 1 < |s| && s[k] == s[k + 1] == MARK
    requires forall i :: 0 <= i < k ==> !(s[i] == MARK && s[i + 1] == MARK)
    ensures FirstPair(s) == k
  {
  }

  lemma NoPair(s: seq<byte>)
    requires forall i :: 0 <= i < |s| - 1 ==> !(s[i] == MARK && s[i + 1] == MARK)
    ensures FirstPair(s) == |s|
  {
  }

  predicate PairAt(s: seq<byte>, k: nat) { k + 1 < |s| && s[k] == MARK && s[k + 1] == MARK }

  /** The two digits stand where the first pair of question marks stood; nothing else changes. */
  lemma SizedMeans(s: seq<byte>, digits: seq<byte>)
    requires |digits| == 2
    ensures (forall k: nat :: !PairAt(s, k)) ==> Sized(s, digits) == s
    ensures forall k: nat :: PairAt(s, k) && (forall i: nat :: i < k ==> !PairAt(s, i)) ==>
                               Sized(s, digits) == s[..k] + digits + s[k + 2..]
  {
    hide FirstPair;
    var k := FirstPair(s);
    if k < |s| { assert PairAt(s, k); }
    forall j: nat | PairAt(s, j) && (forall i: nat :: i < j ==> !PairAt(s, i))
      ensures Sized(s, digits) == s[..j] + digits + s[j + 2..]
    {
      assert forall i: nat :: i < j ==> !PairAt(s, i);
      PairIs(s, j);
    }
  }

  /** ReplaceOptionalSizeA over `[at, a.Length)`. */
  method ReplaceOptionalSize(a: array<byte>, at: nat, digits: seq<byte>)
    requires |digits| == 2 && at <= a.Length
    modifies a
    ensures a[..] == old(a[..at]) + Sized(old(a[at..]), digits)
  {
    hide FirstPair;
    ghost var s := a[at..];
    var p := at;
    while a.Length - p >= 2
      invariant at <= p <= a.Length && a[..] == old(a[..])
      invariant forall i :: 0 <= i < p - at && i + 1 < |s| ==> !(s[i] == MARK && s[i + 1] == MARK)
    {
      assert s[p - at] == a[p] && s[p - at + 1] == a[p + 1];
      if a[p] == MARK && a[p + 1] == MARK {
        PairIs(s, p - at);
        a[p] := digits[0];
        a[p + 1] := digits[1];
        return;
      }
      p := p + 1;
    }
    NoPair(s);
  }

  /** Zeros behind a name hold no question mark. */
  lemma SizedPadded(s: seq<byte>, pad: seq<byte>, digits: seq<byte>)
    requires |digits| == 2 && forall i :: 0 <= i < |pad| ==> pad[i] == 0
    ensures Sized(s + pad, digits) == Sized(s, digits) + pad
  {
    hide FirstPair;
    var t := s + pad;
    var k := FirstPair(s);
    if k < |s| {
      PairIs(t, k);
    } else {
      forall i | 0 <= i < |t| - 1 ensures !(t[i] == MARK && t[i + 1] == MARK) { }
      NoPair(t);
    }
  }

  // -------------------------------------------------------------------------------- the block

  /** One thunk of 4 or 8 bytes. */
  function ThunkBytes(ordinal: bool, thunk: nat): (s: seq<byte>)
    requires thunk == 4 || thunk == 8
    ensures |s| == thunk
  {
    if !ordinal then Fill(thunk, 0)
    else if thunk == 4 then Bytes32(0x8000_0001)
    else Bytes32(1) + Bytes32(0x8000_0000)
  }

  /** A table of one ordinal import and its end, twice: for names and for addresses. */
  function FourThunks(thunk: nat): (s: seq<byte>)
    requires thunk == 4 || thunk == 8
    ensures |s| == 4 * thunk
  {
    ThunkBytes(true, thunk) + ThunkBytes(false, thunk) + ThunkBytes(true, thunk) + ThunkBytes(false, thunk)
  }

  function NewDesc(n: nat, obBase: u32, obTab: nat, thunk: nat, obStr: nat): Desc
  {
    Desc(Wrap(obBase + obTab + thunk * (4 * n)), 0, Wrap(obBase + obStr), Wrap(obBase + obTab + thunk * (4 * n + 2)))
  }

  /** The descriptors of the first `n` DLLs. */
  function DescBlock(dlls: seq<seq<byte>>, n: nat, obBase: u32, obTab: nat, thunk: nat, obDll: nat): (s: seq<byte>)
    requires n <= |dlls|
    ensures |s| == 20 * n
  {
    if n == 0 then []
    else DescBlock(dlls, n - 1, obBase, obTab, thunk, obDll)
         + DescBytes(NewDesc(n - 1, obBase, obTab, thunk, obDll + NamesSize(dlls[..n - 1])))
  }

  function ThunkBlock(n: nat, thunk: nat): (s: seq<byte>)
    requires thunk == 4 || thunk == 8
    ensures |s| == 4 * thunk * n
  {
    if n == 0 then [] else ThunkBlock(n - 1, thunk) + FourThunks(thunk)
  }

  function NameBytes(dll: seq<byte>, digits: seq<byte>): (s: seq<byte>)
    requires |digits| == 2
    ensures |s| == NameSize(dll)
  {
    Sized(dll, digits) + Fill(NameSize(dll) - |dll|, 0)
  }

  function NameBlock(dlls: seq<seq<byte>>, n: nat, digits: seq<byte>): (s: seq<byte>)
    requires |digits| == 2 && n <= |dlls|
    ensures |s| == NamesSize(dlls[..n])
  {
    if n == 0 then []
    else
      NextName(dlls, n - 1);
      NameBlock(dlls, n - 1, digits) + NameBytes(dlls[n - 1], digits)
  }

  /** A buffer in which a middle part grows over zeros. */
  function Growing(before: seq<byte>, part: seq<byte>, zeros: nat,
                   after: seq<byte>): seq<byte> { before + part + Fill(zeros, 0) + after }

  lemma GrowPart(before: seq<byte>, part: seq<byte>, zeros: nat, after: seq<byte>, s: seq<byte>)
    requires |s| <= zeros
    ensures Store(Growing(before, part, zeros, after), |before| + |part|, s) ==
            Growing(before, part + s, zeros - |s|, after)
  {
  }

  /** The three parts that grow: descriptors, thunks and names, around what is inherited. */
  function Parts(d: seq<byte>, zd: nat, mid: seq<byte>, t: seq<byte>, zt: nat, s: seq<byte>, zs: nat): seq<byte>
  {
    d + Fill(zd, 0) + mid + t + Fill(zt, 0) + s + Fill(zs, 0)
  }

  lemma GrowDescs(d: seq<byte>, zd: nat, mid: seq<byte>, t: seq<byte>, zt: nat, s: seq<byte>, zs: nat, x: seq<byte>)
    requires |x| <= zd
    ensures Store(Parts(d, zd, mid, t, zt, s, zs), |d|, x) == Parts(d + x, zd - |x|, mid, t, zt, s, zs)
  {
    hide Store, Fill;
    var after := mid + t + Fill(zt, 0) + s + Fill(zs, 0);
    GrowPart([], d, zd, after, x);
    assert Parts(d, zd, mid, t, zt, s, zs) == Growing([], d, zd, after);
    assert Parts(d + x, zd - |x|, mid, t, zt, s, zs) == Growing([], d + x, zd - |x|, after);
  }

  lemma GrowThunks(d: seq<byte>, zd: nat, mid: seq<byte>, t: seq<byte>, zt: nat, s: seq<byte>, zs: nat, x: seq<byte>)
    requires |x| <= zt
    ensures Store(Parts(d, zd, mid, t, zt, s, zs), |d| + zd + |mid| + |t|, x) ==
            Parts(d, zd, mid, t + x, zt - |x|, s, zs)
  {
    hide Store, Fill;
    var before, after := d + Fill(zd, 0) + mid, s + Fill(zs, 0);
    GrowPart(before, t, zt, after, x);
    assert Parts(d, zd, mid, t, zt, s, zs) == Growing(before, t, zt, after);
    assert Parts(d, zd, mid, t + x, zt - |x|, s, zs) == Growing(before, t + x, zt - |x|, after);
  }

  lemma GrowNames(d: seq<byte>, zd: nat, mid: seq<byte>, t: seq<byte>, zt: nat, s: seq<byte>, zs: nat, x: seq<byte>)
    requires |x| <= zs
    ensures Store(Parts(d, zd, mid, t, zt, s, zs), |d| + zd + |mid| + |t| + zt + |s|, x) ==
            Parts(d, zd, mid, t, zt, s + x, zs - |x|)
  {
    hide Store, Fill;
    var before := d + Fill(zd, 0) + mid + t + Fill(zt, 0);
    GrowPart(before, s, zs, [], x);
    assert Parts(d, zd, mid, t, zt, s, zs) == Growing(before, s, zs, []);
    assert Parts(d, zd, mid, t, zt, s + x, zs - |x|) == Growing(before, s + x, zs - |x|, []);
  }

  /** What the block is made of. */
  datatype Plan = Plan(dlls: seq<seq<byte>>, inherited: seq<byte>, obBase: u32, obTab: nat, thunk: nat, obDll: nat,
                       digits: seq<byte>, cbNew: nat)

  ghost predicate PlanOk(p: Plan)
  {
    && |p.digits| == 2 && (p.thunk == 4 || p.thunk == 8) && 20 * |p.dlls| + |p.inherited| <= p.obTab
    && p.obDll == p.obTab + 4 * p.thunk * |p.dlls| && p.cbNew == p.obDll + NamesSize(p.dlls)
  }

  function DescOf(p: Plan, n: nat): Desc
    requires n <= |p.dlls|
  {
    NewDesc(n, p.obBase, p.obTab, p.thunk, p.obDll + NamesSize(p.dlls[..n]))
  }

  /** The block after `n` DLLs: every part is laid out for all of them, and filled up to the `n`th. The
      parts tile it from 0 to its end. */
  ghost function BlockAfter(p: Plan, n: nat): seq<byte>
    requires PlanOk(p) && n <= |p.dlls|
  {
    NamesPrefix(p.dlls, n);
    ThunkRoom(p, n);
    Parts(DescBlock(p.dlls, n, p.obBase, p.obTab, p.thunk, p.obDll), 20 * (|p.dlls| - n),
          p.inherited + Fill(p.obTab - 20 * |p.dlls| - |p.inherited|, 0),
          ThunkBlock(n, p.thunk), 4 * p.thunk * |p.dlls| - 4 * p.thunk * n,
          NameBlock(p.dlls, n, p.digits), p.cbNew - p.obDll - NamesSize(p.dlls[..n]))
  }

  lemma ThunkRoom(p: Plan, n: nat)
    requires PlanOk(p) && n <= |p.dlls|
    ensures 4 * p.thunk * n <= 4 * p.thunk * |p.dlls|
    ensures n < |p.dlls| ==>
              4 * p.thunk * n + 4 * p.thunk <= 4 * p.thunk * |p.dlls|
              && 4 * p.thunk * (n + 1) == 4 * p.thunk * n + 4 * p.thunk
  {
  }

  lemma BlockSizeIs(p: Plan, n: nat)
    requires PlanOk(p) && n <= |p.dlls|
    ensures |BlockAfter(p, n)| == p.cbNew
  {
    hide DescBlock, NameBlock, ThunkBlock, NamesSize;
    NamesPrefix(p.dlls, n);
    ThunkRoom(p, n);
  }

  /** Offset of name `n`. */
  function NameOffset(p: Plan, n: nat): nat
    requires n <= |p.dlls|
  {
    p.obDll + NamesSize(p.dlls[..n])
  }

  /** One DLL: its name, its descriptor and its thunks. */
  lemma BlockStep(p: Plan, n: nat)
    requires PlanOk(p) && n < |p.dlls|
    ensures var m := BlockAfter(p, n);
            Store(Store(Store(m, NameOffset(p, n), NameBytes(p.dlls[n], p.digits)), 20 * n,
                        DescBytes(DescOf(p, n))), p.obTab + 4 * p.thunk * n, FourThunks(p.thunk))
            == BlockAfter(p, n + 1)
  {
    hide Store, Fill, Parts, DescBlock, NameBlock, ThunkBlock, DescBytes, NewDesc, FourThunks, NameBytes,
      NamesSize, NameSize;
    NextName(p.dlls, n);
    NamesPrefix(p.dlls, n);
    NamesPrefix(p.dlls, n + 1);
    ThunkRoom(p, n);
    BlocksStep(p, n);
    var d, zd := DescBlock(p.dlls, n, p.obBase, p.obTab, p.thunk, p.obDll), 20 * (|p.dlls| - n);
    var mid := p.inherited + Fill(p.obTab - 20 * |p.dlls| - |p.inherited|, 0);
    var t, zt := ThunkBlock(n, p.thunk), 4 * p.thunk * |p.dlls| - 4 * p.thunk * n;
    var s, zs := NameBlock(p.dlls, n, p.digits), p.cbNew - p.obDll - NamesSize(p.dlls[..n]);
    var x, y, z := NameBytes(p.dlls[n], p.digits), DescBytes(DescOf(p, n)), FourThunks(p.thunk);
    GrowNames(d, zd, mid, t, zt, s, zs, x);
    GrowDescs(d, zd, mid, t, zt, s + x, zs - |x|, y);
    GrowThunks(d + y, zd - 20, mid, t, zt, s + x, zs - |x|, z);
  }

  lemma BlocksStep(p: Plan, n: nat)
    requires PlanOk(p) && n < |p.dlls|
    ensures DescBlock(p.dlls, n + 1, p.obBase, p.obTab, p.thunk, p.obDll) ==
            DescBlock(p.dlls, n, p.obBase, p.obTab, p.thunk, p.obDll) + DescBytes(DescOf(p, n))
    ensures ThunkBlock(n + 1, p.thunk) == ThunkBlock(n, p.thunk) + FourThunks(p.thunk)
    ensures NameBlock(p.dlls, n + 1, p.digits) == NameBlock(p.dlls, n, p.digits) + NameBytes(p.dlls[n], p.digits)
  {
    hide DescBytes, NewDesc, FourThunks, NameBytes, NamesSize;
  }

  // --------------------------------------------------------------------------------- filling

  /** Copies a name to the end of what is used and patches its size marks. */
  method EmitName(pbNew: array<byte>, obStr: nat, dll: seq<byte>, digits: seq<byte>)
    requires |digits| == 2 && obStr + NameSize(dll) <= pbNew.Length && pbNew[obStr..] == Fill(pbNew.Length - obStr, 0)
    modifies pbNew
    ensures pbNew[..] == Store(old(pbNew[..]), obStr, NameBytes(dll, digits))
  {
    hide Store, Sized, Fill;
    ghost var was, rest := pbNew[..], pbNew.Length - obStr;
    Put(pbNew, obStr, dll + [0]);
    NameCopied(was, obStr, dll, rest);
    assert pbNew[obStr..] == pbNew[..][obStr..] && pbNew[..obStr] == pbNew[..][..obStr];
    SizedPadded(dll, Fill(rest - |dll|, 0), digits);
    ReplaceOptionalSize(pbNew, obStr, digits);
    NamePatched(was, obStr, dll, rest, digits);
  }

  lemma NameCopied(m: Mem, at: nat, dll: seq<byte>, rest: nat)
    requires at + rest == |m| && m[at..] == Fill(rest, 0) && |dll| + 1 <= rest
    ensures var n := Store(m, at, dll + [0]); n[..at] == m[..at] && n[at..] == dll + Fill(rest - |dll|, 0)
  {
    assert forall i :: at <= i < |m| ==> m[i] == m[at..][i - at];
  }

  lemma NamePatched(m: Mem, at: nat, dll: seq<byte>, rest: nat, digits: seq<byte>)
    requires |digits| == 2 && at + rest == |m| && m[at..] == Fill(rest, 0) && NameSize(dll) <= rest
    ensures m[..at] + (Sized(dll, digits) + Fill(rest - |dll|, 0)) == Store(m, at, NameBytes(dll, digits))
  {
    hide Sized;
    assert forall i :: at <= i < |m| ==> m[i] == m[at..][i - at];
  }

  /** The loop over the new DLLs. The running offset ends at the end of the block. */
  method FillBlock(pbNew: array<byte>, dlls: seq<seq<byte>>, obBase: u32, obTab: nat, thunk: nat, obDll: nat,
                   digits: seq<byte>, ghost p: Plan)
    returns (obStr: nat)
    requires PlanOk(p) && p.dlls == dlls && p.obBase == obBase && p.obTab == obTab && p.thunk == thunk
             && p.obDll == obDll && p.digits == digits
    requires pbNew[..] == BlockAfter(p, 0)
    modifies pbNew
    ensures pbNew[..] == BlockAfter(p, |dlls|) && obStr == pbNew.Length
  {
    hide Store, BlockAfter, NamesSize, NameSize, DescBytes, NewDesc, FourThunks, NameBytes;
    BlockSizeIs(p, 0);
    NoNames(dlls);
    obStr := obDll;
    var n := 0;
    while n < |dlls|
      invariant 0 <= n <= |dlls| && pbNew[..] == BlockAfter(p, n) && obStr == obDll + NamesSize(dlls[..n])
                && pbNew.Length == p.cbNew
    {
      ghost var m := pbNew[..];
      NextName(dlls, n);
      NamesPrefix(dlls, n + 1);
      ThunkRoom(p, n);
      ZeroTail(p, n);
      EmitName(pbNew, obStr, dlls[n], digits);
      var d := NewDesc(n, obBase, obTab, thunk, obStr);
      Put(pbNew, 20 * n, DescBytes(d));
      Put(pbNew, obTab + 4 * thunk * n, FourThunks(thunk));
      BlockStep(p, n);
      obStr := obStr + NameSize(dlls[n]);
      n := n + 1;
    }
    assert dlls[..n] == dlls;
  }

  lemma ZeroTail(p: Plan, n: nat)
    requires PlanOk(p) && n < |p.dlls|
    ensures NameOffset(p, n) <= p.cbNew && |BlockAfter(p, n)| == p.cbNew
    ensures BlockAfter(p, n)[NameOffset(p, n)..] == Fill(p.cbNew - NameOffset(p, n), 0)
  {
    hide DescBlock, NameBlock, ThunkBlock, NamesSize, Fill;
    NamesPrefix(p.dlls, n);
    ThunkRoom(p, n);
  }

  /** UPDATE_IMPORTS_XX: `inherited` is the old import table as it could be read, `obBase` where the
      block was allocated relative to the module. */
  method UpdateImports(dlls: seq<seq<byte>>, oldSize: u32, inherited: Option<seq<byte>>, obBase: u32, thunk: nat,
                       digits: seq<byte>)
    returns (pbNew: Option<array<byte>>, cbNew: nat, obStr: nat)
    requires (thunk == 4 || thunk == 8) && |digits| == 2 && |dlls| < SPACE
    requires inherited.Some? ==> |inherited.value| == 20 * (oldSize / 20)
    ensures pbNew.Some? <==>
            inherited.Some? && BlockSize(dlls, oldSize / 20, thunk) < SPACE
            && (dlls == [] || NamesSize(dlls) <= STRSAFE_MAX)
    ensures pbNew.Some? ==>
              var p := Plan(dlls, inherited.value, obBase, PadToDwordPtr(TableSize(|dlls|, oldSize / 20)), thunk,
                            NamesAt(|dlls|, oldSize / 20, thunk), digits, cbNew);
              && PlanOk(p) && fresh(pbNew.value) && pbNew.value[..] == BlockAfter(p, |dlls|)
              && cbNew == BlockSize(dlls, oldSize / 20, thunk) == obStr == pbNew.value.Length
  {
    hide PadToDwordPtr, NamesSize, NamesAt, BlockSize, BlockAfter, Fill;
    pbNew, cbNew, obStr := None, 0, 0;
    var nOldDlls := oldSize / 20;
    var sizes := ComputeSizes(dlls, nOldDlls, thunk);
    if sizes == None {
      return;
    }
    var (obTab, obDll, size) := sizes.value;
    if inherited == None {
      return;
    }
    if dlls != [] && size - obDll > STRSAFE_MAX {
      SizesFit(dlls, nOldDlls, thunk);
      return;
    }
    SizesFit(dlls, nOldDlls, thunk);
    var block := new byte[size](_ => 0);
    ghost var p := Plan(dlls, inherited.value, obBase, obTab, thunk, obDll, digits, size);
    Put(block, 20 * |dlls|, inherited.value);
    FirstBlock(p);
    obStr := FillBlock(block, dlls, obBase, obTab, thunk, obDll, digits, p);
    pbNew, cbNew := Some(block), size;
  }

  lemma SizesFit(dlls: seq<seq<byte>>, oldDlls: nat, thunk: nat)
    requires thunk == 4 || thunk == 8
    ensures var obTab := PadToDwordPtr(TableSize(|dlls|, oldDlls));
            && TableSize(|dlls|, oldDlls) <= obTab
            && NamesAt(|dlls|, oldDlls, thunk) == obTab + 4 * thunk * |dlls| >= obTab
            && BlockSize(dlls, oldDlls, thunk) == NamesAt(|dlls|, oldDlls, thunk) + NamesSize(dlls)
  {
    hide NamesSize, PadToDwordPtr;
    PadAbove(TableSize(|dlls|, oldDlls));
    if thunk == 4 { assert 4 * thunk * |dlls| == 16 * |dlls|; } else { assert 4 * thunk * |dlls| == 32 * |dlls|; }
  }

  lemma PadAbove(n: nat)
    ensures n <= PadToDwordPtr(n)
  {
  }

  lemma FirstBlock(p: Plan)
    requires PlanOk(p)
    ensures Store(Fill(p.cbNew, 0), 20 * |p.dlls|, p.inherited) == BlockAfter(p, 0)
  {
    hide NamesSize;
    NoNames(p.dlls);
    ThunkRoom(p, 0);
  }

  // ----------------------------------------------------------------------------- reading back

  lemma {:induction false} PlacedPrefix(p: Plan, n: nat, k: nat)
    requires PlanOk(p) && k <= n <= |p.dlls|
    ensures DescBlock(p.dlls, k, p.obBase, p.obTab, p.thunk, p.obDll) <= DescBlock(p.dlls, n, p.obBase, p.obTab,
                                                                                   p.thunk, p.obDll)
    ensures ThunkBlock(k, p.thunk) <= ThunkBlock(n, p.thunk)
            && NameBlock(p.dlls, k, p.digits) <= NameBlock(p.dlls, n, p.digits)
    decreases n - k
  {
    hide DescBlock, ThunkBlock, NameBlock, NameBytes, DescBytes, FourThunks, NewDesc, NamesSize;
    if k < n {
      PlacedPrefix(p, n, k + 1);
      BlocksStep(p, k);
    }
  }

  /** The finished block, part by part. */
  lemma Finished(p: Plan)
    requires PlanOk(p)
    ensures var m := BlockAfter(p, |p.dlls|);
            && |m| == p.cbNew
            && m[..20 * |p.dlls|] == DescBlock(p.dlls, |p.dlls|, p.obBase, p.obTab, p.thunk, p.obDll)
            && m[20 * |p.dlls|..20 * |p.dlls| + |p.inherited|] == p.inherited
            && m[p.obTab..p.obDll] == ThunkBlock(|p.dlls|, p.thunk)
            && m[p.obDll..] == NameBlock(p.dlls, |p.dlls|, p.digits)
  {
    hide DescBlock, ThunkBlock, NameBlock, NamesSize;
    ThunkRoom(p, |p.dlls|);
    assert p.dlls[..|p.dlls|] == p.dlls;
    BlockSizeIs(p, |p.dlls|);
  }

  lemma DescPlaced(p: Plan, n: nat)
    requires PlanOk(p) && n < |p.dlls|
    ensures DescAt(BlockAfter(p, |p.dlls|), 0, n) == DescOf(p, n)
  {
    hide DescBlock, ThunkBlock, NameBlock, NamesSize, BlockAfter, DescAt, Store, DescBytes, NewDesc, NameBytes,
      FourThunks;
    var m, all := BlockAfter(p, |p.dlls|), DescBlock(p.dlls, |p.dlls|, p.obBase, p.obTab, p.thunk, p.obDll);
    Finished(p);
    PlacedPrefix(p, |p.dlls|, n + 1);
    BlocksStep(p, n);
    var s := DescBytes(DescOf(p, n));
    assert all[20 * n..20 * n + 20] == s;
    assert m[20 * n..20 * n + 20] == m[..20 * |p.dlls|][20 * n..20 * n + 20];
    StoreSame(m, 20 * n, s);
    DescRange(p, n);
    DescStored(m, 0, n, DescOf(p, n));
  }

  lemma StoreSame(m: Mem, at: nat, s: seq<byte>)
    requires at + |s| <= |m| && m[at..at + |s|] == s
    ensures Store(m, at, s) == m
  {
    var t := m[at..at + |s|];
    assert forall i :: 0 <= i < |t| ==> t[i] == m[at + i];
  }

  lemma DescRange(p: Plan, n: nat)
    requires n <= |p.dlls|
    ensures DescOk(DescOf(p, n))
  {
    hide NamesSize;
  }

  /** The name of the `n`th new descriptor is the DLL's name with its first size mark replaced; the
      descriptors before and after it have their own. */
  lemma NamePlaced(p: Plan, n: nat)
    requires PlanOk(p) && n < |p.dlls| && CString(p.dlls[n]) && p.digits[0] != 0 && p.digits[1] != 0
    ensures StringAt(BlockAfter(p, |p.dlls|), NameOffset(p, n)) == Sized(p.dlls[n], p.digits)
    ensures DescAt(BlockAfter(p, |p.dlls|), 0, n).name == Wrap(p.obBase + NameOffset(p, n))
  {
    hide DescBlock, ThunkBlock, NameBlock, NamesSize, BlockAfter, NameBytes, StringAt, DescBytes, FourThunks, DescAt;
    DescPlaced(p, n);
    Finished(p);
    PlacedPrefix(p, |p.dlls|, n + 1);
    BlocksStep(p, n);
    var m, all, at := BlockAfter(p, |p.dlls|), NameBlock(p.dlls, |p.dlls|, p.digits), NameOffset(p, n);
    var s := NameBytes(p.dlls[n], p.digits);
    NamesPrefix(p.dlls, n);
    NextName(p.dlls, n);
    NamesPrefix(p.dlls, n + 1);
    assert all[at - p.obDll..at - p.obDll + |s|] == s;
    assert m[at..at + |s|] == m[p.obDll..][at - p.obDll..at - p.obDll + |s|];
    NameRead(m, at, p.dlls[n], p.digits);
  }

  lemma NameRead(m: Mem, at: nat, dll: seq<byte>, digits: seq<byte>)
    requires |digits| == 2 && digits[0] != 0 && digits[1] != 0 && CString(dll)
    requires at + NameSize(dll) <= |m| && m[at..at + NameSize(dll)] == NameBytes(dll, digits)
    ensures StringAt(m, at) == Sized(dll, digits)
  {
    hide StringAt, FirstPair;
    var s := NameBytes(dll, digits);
    var t := m[at..at + NameSize(dll)];
    assert forall k :: 0 <= k < |t| ==> t[k] == CharAt(m, at, k);
    StringWritten(m, at, Sized(dll, digits));
  }

  /** Each new DLL has one ordinal import, by name and by address, and both tables end. */
  lemma ThunksPlaced(p: Plan, n: nat)
    requires PlanOk(p) && n < |p.dlls|
    ensures var at := p.obTab + 4 * p.thunk * n;
            && 4 * p.thunk * n >= 0 && at + 4 * p.thunk <= p.obDll <= |BlockAfter(p, |p.dlls|)|
            && BlockAfter(p, |p.dlls|)[at..at + 4 * p.thunk] == FourThunks(p.thunk)
  {
    hide DescBlock, ThunkBlock, NameBlock, NamesSize, BlockAfter, NameBytes, DescBytes, FourThunks;
    Finished(p);
    ThunkRoom(p, n);
    PlacedPrefix(p, |p.dlls|, n + 1);
    BlocksStep(p, n);
    var m, all, at := BlockAfter(p, |p.dlls|), ThunkBlock(|p.dlls|, p.thunk), p.obTab + 4 * p.thunk * n;
    var front := ThunkBlock(n, p.thunk);
    assert front + FourThunks(p.thunk) <= all;
    assert all[|front|..|front| + 4 * p.thunk] == FourThunks(p.thunk);
    SubSlice(m, p.obTab, p.obDll, all, |front|, 4 * p.thunk);
  }

  lemma SubSlice(m: Mem, lo: nat, hi: nat, all: seq<byte>, at: nat, k: nat)
    requires lo <= hi <= |m| && m[lo..hi] == all && at + k <= |all|
    ensures lo + at + k <= hi && m[lo + at..lo + at + k] == all[at..at + k]
  {
    var x, y := m[lo + at..lo + at + k], all[at..at + k];
    forall i | 0 <= i < k ensures x[i] == y[i] {
      assert m[lo..hi][at + i] == m[lo + at + i];
    }
  }

  /** A thunk of 4 or 8 bytes as a number. */
  function ThunkAt(m: Mem, a: int, thunk: nat): int
  {
    Read32(m, a) + if thunk == 8 then SPACE * Read32(m, a + 4) else 0
  }

  /** The highest bit of a thunk marks an import by ordinal. */
  function ByOrdinal(ordinal: int, thunk: nat): int
  {
    ordinal + if thunk == 8 then 0x8000_0000 * SPACE else 0x8000_0000
  }

  /** The table at `a` imports ordinal 1 and ends. */
  predicate ImportsFirst(m: Mem, a: int, thunk: nat)
  {
    0 <= a && a + 2 * thunk <= |m| && ThunkAt(m, a, thunk) == ByOrdinal(1, thunk) && ThunkAt(m, a + thunk, thunk) == 0
  }

  lemma ThunkRead(m: Mem, a: nat, ordinal: bool, thunk: nat)
    requires thunk == 4 || thunk == 8
    requires a + thunk <= |m| && m[a..a + thunk] == ThunkBytes(ordinal, thunk)
    ensures ThunkAt(m, a, thunk) == if ordinal then ByOrdinal(1, thunk) else 0
  {
    hide Bytes32, Read32;
    if !ordinal {
      ZeroRead(m, a, thunk);
    } else if thunk == 4 {
      ReadBytes(m, a, 0x8000_0001);
    } else {
      assert m[a..a + 4] == m[a..a + 8][..4] && m[a + 4..a + 8] == m[a..a + 8][4..];
      ReadBytes(m, a, 1);
      ReadBytes(m, a + 4, 0x8000_0000);
    }
  }

  lemma ZeroByte(m: Mem, a: nat, n: nat, k: nat)
    requires a + n <= |m| && m[a..a + n] == Fill(n, 0) && k < n
    ensures At(m, a + k) == 0
  {
    assert m[a..a + n][k] == 0;
  }

  lemma ZeroRead(m: Mem, a: nat, n: nat)
    requires n == 4 || n == 8
    requires a + n <= |m| && m[a..a + n] == Fill(n, 0)
    ensures Read32(m, a) == 0 && (n == 8 ==> Read32(m, a + 4) == 0)
  {
    hide Read32, At;
    ZeroByte(m, a, n, 0);
    ZeroByte(m, a, n, 1);
    ZeroByte(m, a, n, 2);
    ZeroByte(m, a, n, 3);
    ReadZero(m, a);
    if n == 8 {
      ZeroByte(m, a, n, 4);
      ZeroByte(m, a, n, 5);
      ZeroByte(m, a, n, 6);
      ZeroByte(m, a, n, 7);
      ReadZero(m, a + 4);
    }
  }

  lemma FourRead(m: Mem, a: nat, thunk: nat)
    requires thunk == 4 || thunk == 8
    requires a + 4 * thunk <= |m| && m[a..a + 4 * thunk] == FourThunks(thunk)
    ensures ImportsFirst(m, a, thunk) && ImportsFirst(m, a + 2 * thunk, thunk)
  {
    hide ThunkBytes, ThunkAt, ByOrdinal;
    FourSlices(m, a, ThunkBytes(true, thunk), ThunkBytes(false, thunk), thunk);
    ThunkRead(m, a, true, thunk);
    ThunkRead(m, a + thunk, false, thunk);
    ThunkRead(m, a + 2 * thunk, true, thunk);
    ThunkRead(m, a + 3 * thunk, false, thunk);
  }

  lemma FourSlices(m: Mem, a: nat, one: seq<byte>, none: seq<byte>, k: nat)
    requires |one| == k && |none| == k && a + 4 * k <= |m| && m[a..a + 4 * k] == one + none + one + none
    ensures m[a..a + k] == one && m[a + k..a + k + k] == none
    ensures m[a + 2 * k..a + 2 * k + k] == one && m[a + 3 * k..a + 3 * k + k] == none
  {
    var pair := one + none;
    assert one + none + one + none == pair + pair;
    TwoSlices(m, a, pair, pair);
    TwoSlices(m, a, one, none);
    TwoSlices(m, a + 2 * k, one, none);
  }

  lemma TwoSlices(m: Mem, a: nat, x: seq<byte>, y: seq<byte>)
    requires a + |x| + |y| <= |m| && m[a..a + |x| + |y|] == x + y
    ensures m[a..a + |x|] == x && m[a + |x|..a + |x| + |y|] == y
  {
    var both := m[a..a + |x| + |y|];
    assert both[..|x|] == x && both[|x|..] == y;
    assert m[a..a + |x|] == both[..|x|] && m[a + |x|..a + |x| + |y|] == both[|x|..];
  }

  lemma OffsetRead(base: u32, offset: nat)
    requires offset < SPACE
    ensures Wrap(Wrap(base + offset) - base) == offset
  {
  }

  /** Read through the `n`th new descriptor of the finished block, both its tables import ordinal 1 and
      nothing else, and they are two tables. */
  lemma TablesRead(p: Plan, n: nat)
    requires PlanOk(p) && n < |p.dlls| && p.cbNew < SPACE
    ensures var m := BlockAfter(p, |p.dlls|);
            var d := DescAt(m, 0, n);
            var a, b := Wrap(d.oft - p.obBase), Wrap(d.ft - p.obBase);
            ImportsFirst(m, a, p.thunk) && ImportsFirst(m, b, p.thunk) && a + 2 * p.thunk <= b && d.chain == 0
  {
    hide BlockAfter, DescAt, FourThunks, ImportsFirst, NamesSize, Wrap, DescOf, PlanOk;
    var m, at := BlockAfter(p, |p.dlls|), p.obTab + 4 * p.thunk * n;
    Widths(p);
    DescPlaced(p, n);
    ThunksPlaced(p, n);
    FourRead(m, at, p.thunk);
    DescFields(p, n);
    OffsetRead(p.obBase, at);
    OffsetRead(p.obBase, at + 2 * p.thunk);
  }

  lemma Widths(p: Plan)
    requires PlanOk(p)
    ensures (p.thunk == 4 || p.thunk == 8) && |BlockAfter(p, |p.dlls|)| == p.cbNew
  {
    hide DescBlock, ThunkBlock, NameBlock, NamesSize, BlockAfter;
    Finished(p);
  }

  lemma DescFields(p: Plan, n: nat)
    requires n <= |p.dlls| && 4 * p.thunk * n >= 0
    ensures DescOf(p, n).oft == Wrap(p.obBase + (p.obTab + 4 * p.thunk * n))
    ensures DescOf(p, n).ft == Wrap(p.obBase + (p.obTab + 4 * p.thunk * n + 2 * p.thunk)) && DescOf(p, n).chain == 0
  {
    hide NamesSize, Wrap;
    assert p.thunk * (4 * n) == 4 * p.thunk * n && p.thunk * (4 * n + 2) == 4 * p.thunk * n + 2 * p.thunk;
  }
}

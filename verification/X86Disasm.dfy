/** The x86 instruction copier (class CDetourDis). */
module X86Disasm {
  import opened Options
  import opened Memory
  import opened X86Flow
  import opened X86Length

  /** One row of an opcode table: the copy routine and, for `Bytes`, its sizes. */
  datatype Entry =
    | Bytes(fixed: nat, fixed16: nat, modOffset: nat, relOffset: nat, address: bool, noEnlarge: bool)
    | Jump | Prefix | Segment | Operand | Address | Repne | Rep | TwoByte
    | Op0F78 | Op0F00 | Op0FB8 | OpF6 | OpF7 | OpFF | Op8F | OpVex | Invalid

  datatype Tables = Tables(one: seq<Entry>, two: seq<Entry>) {
    function One(b: byte): Entry { if b < |one| then one[b] else Invalid }

    function Two(b: byte): Entry { if b < |two| then two[b] else Invalid }
  }

  /** `out` is what the copier stores from the destination on, `len` the source bytes it consumes,
      `extra` what it reports through `plExtra`. */
  datatype Copied = Copied(out: seq<byte>, len: nat, extra: int)

  const BYTES2_MOD := Bytes(2, 2, 1, 0, false, false)
  const BYTES2_MOD1 := Bytes(3, 3, 1, 0, false, false)
  const BYTES2_MOD_OPERAND := Bytes(6, 4, 1, 0, false, false)
  const BYTES3_OR5 := Bytes(5, 3, 0, 0, false, false)
  const BYTES3_OR5_TARGET := Bytes(5, 3, 0, 1, false, false)
  const BYTES2_CANT_JUMP := Bytes(2, 2, 0, 1, false, true)
  const BYTES4 := Bytes(4, 4, 0, 0, false, false)

  /** A row that copies an instruction without a relative operand. */
  predicate PlainRow(e: Entry)
  {
    match e
    case Bytes(fixed, fixed16, modOffset, relOffset, _, noEnlarge) =>
      relOffset == 0 && !noEnlarge && fixed >= 1 && fixed16 >= 1 && modOffset < fixed && modOffset < fixed16
    case OpF6 => true
    case OpF7 => true
    case OpFF => true
    case Op0F78 => true
    case Op0F00 => true
    case Op0FB8 => true
    case Op8F => true
    case OpVex => true
    case Invalid => true
    case _ => false
  }

  function PrefixRow(b: byte): Entry
    requires IsLegacyPrefix(b)
  {
    if b == 0x66 then Operand else if b == 0x67 then Address
    else if b == 0xf2 then Repne else if b == 0xf3 then Rep
    else if b == 0xf0 then Prefix else Segment
  }

  /** The rows the copier's correctness rests on: prefixes, relative transfers and the two-byte
      escape; every other row copies without a relative operand. */
  predicate OneRowOk(b: byte, e: Entry)
  {
    if IsLegacyPrefix(b) then e == PrefixRow(b)
    else if IsShort(b) then e == Jump
    else if IsLoop(b) then e == BYTES2_CANT_JUMP
    else if IsNear(b) then e == BYTES3_OR5_TARGET
    else if b == 0x0f then e == TwoByte
    else if b == 0xc7 then e == BYTES2_MOD_OPERAND
    else PlainRow(e)
  }

  predicate TwoRowOk(b: byte, e: Entry)
  {
    if IsNearCond(b) then e == BYTES3_OR5_TARGET else PlainRow(e)
  }

  ghost predicate TablesOk(t: Tables)
  {
    && (forall b: byte :: OneRowOk(b, t.One(b)))
    && (forall b: byte :: TwoRowOk(b, t.Two(b)))
    && SizesOk(t)
  }

  /** Both sizes of a `Bytes` row whose opcode ends `opcode` bytes on are those of the encoding: `f` is
      its form without prefixes, `f16` with both size prefixes. */
  predicate SizedAs(e: Entry, opcode: nat, f: Form, f16: Form)
    requires e.Bytes?
  {
    && e.modOffset == (if f.operand == NoOperand then 0 else opcode)
    && e.fixed == opcode + (if f.operand == NoOperand then 0 else 1) + f.imm
    && e.fixed16 == opcode + (if f.operand == NoOperand then 0 else 1) + f16.imm
  }

  /** The row of opcode `b` has the sizes of the encoding, or is the routine for that opcode; it is
      invalid only where the encoding is. */
  predicate OneSized(b: byte, e: Entry)
  {
    match e
    case Bytes(_, _, _, _, address, _) =>
      && b !in {0x62, 0x8f, 0xc4, 0xc5, 0xd6, 0xf6, 0xf7}
      && address == (0xa0 <= b <= 0xa3)
      && var operand := if OneModRm(b) then General else NoOperand;
      SizedAs(e, 1, Form(1, operand, OneImm(b, 0, NO_FLAGS)), Form(1, operand, OneImm(b, 0, BOTH_SIZES)))
    case OpF6 => b == 0xf6
    case OpF7 => b == 0xf7
    case OpFF => b == 0xff
    case Op8F => b == 0x8f
    case OpVex => b in {0x62, 0xc4, 0xc5}
    case Invalid => b == 0xd6
    case Op0F78 => false
    case Op0F00 => false
    case Op0FB8 => false
    case _ => true
  }

  predicate TwoSized(b: byte, e: Entry)
  {
    match e
    case Bytes(_, _, _, _, address, _) =>
      && b != 0x78 && b != 0xb8 && !address
      && var f, f16 := TwoForm(b, NO_FLAGS), TwoForm(b, BOTH_SIZES);
      f.Some? && f16.Some? && SizedAs(e, f.value.opcode - 1, f.value, f16.value)
    case Op0F00 => b == 0
    case Op0F78 => b == 0x78
    case Op0FB8 => b == 0xb8
    case Invalid => Undefined(b)
    case _ => false
  }

  const BOTH_SIZES := Flags(true, true, false, false)

  ghost predicate SizesOk(t: Tables)
  {
    && (forall b: byte {:trigger OneSized(b, t.One(b))} :: OneSized(b, t.One(b)))
    && (forall b: byte {:trigger TwoSized(b, t.Two(b))} :: TwoSized(b, t.Two(b)))
  }

  /** Bytes that follow a ModR/M byte: low nibble of the table plus its SIB flag. */
  function ModRmSize(b: byte): nat
  {
    var mod, rm := b / 0x40, b % 8;
    if mod == 0 then (if rm == 4 then 1 else if rm == 5 then 4 else 0)
    else if mod == 1 then (if rm == 4 then 2 else 1)
    else if mod == 2 then (if rm == 4 then 5 else 4)
    else 0
  }

  predicate ModRmSib(b: byte) { b / 0x40 == 0 && b % 8 == 4 }

  /** Length of a `Bytes` row at `src`, `None` when it needs bytes beyond the end of memory. */
  function BytesSize(m: Mem, src: nat, e: Entry, fl: Flags): Option<nat>
    requires e.Bytes?
  {
    var fixed := if e.address then (if fl.addr16 then e.fixed16 else e.fixed)
                 else if fl.op16 then e.fixed16 else e.fixed;
    if e.modOffset == 0 then Some(fixed)
    else if src + e.modOffset + 1 >= |m| then None
    else
      var modRm := m[src + e.modOffset];
      var sib := ModRmSib(modRm) && m[src + e.modOffset + 1] % 8 == 5;
      Some(fixed + ModRmSize(modRm) + if sib then 4 else 0)
  }

  predicate Fits(x: int, size: nat)
  {
    if size == 1 then -0x80 <= x < 0x80 else size == 2 ==> -0x8000 <= x < 0x8000
  }

  function Displacement(m: Mem, a: nat, size: nat): int
  {
    if size == 1 then Disp8(m, a)
    else if size == 2 then Signed(Read16(m, a), 0x1_0000)
    else Signed(Read32(m, a), SPACE)
  }

  /** AdjustTarget: the displacement re-based from `src` to `dst`, in 32-bit arithmetic. */
  function NewOffset(disp: int, dst: int, src: int): int
  {
    Signed(disp - Signed(dst - src, SPACE), SPACE)
  }

  function Encode(x: int, size: nat): (s: seq<byte>)
    ensures size == 1 || size == 2 || size == 4 ==> |s| == size
  {
    if size == 1 then [x % 0x100] else if size == 2 then Bytes16(x) else Bytes32(x)
  }

  function CopyBytes(m: Mem, dst: int, src: nat, e: Entry, fl: Flags): Option<Copied>
    requires e.Bytes?
  {
    match BytesSize(m, src, e, fl)
    case None => None
    case Some(n) =>
      if src + n > |m| then None
      else if e.relOffset == 0 then Some(Copied(m[src..src + n], n, 0))
      else if e.relOffset >= n || !(n - e.relOffset == 1 || n - e.relOffset == 2 || n - e.relOffset == 4) then None
      else
        var size := n - e.relOffset;
        var offset := NewOffset(Displacement(m, src + e.relOffset, size), dst, src);
        var extra := if Fits(offset, size) then 0 else 4 - size;
        Some(Copied(m[src..src + e.relOffset] + Encode(offset, size), n, if e.noEnlarge then -extra else extra))
  }

  /** CopyBytesJump: short jumps become near ones. */
  function CopyJump(m: Mem, dst: int, src: nat): Option<Copied>
  {
    if src + 2 > |m| then None
    else
      var disp := Disp8(m, src + 1);
      var moved := Signed(dst - src, SPACE);
      if m[src] == 0xeb then Some(Copied([0xe9] + Bytes32(disp - (moved + 3)), 2, 3))
      else Some(Copied([0x0f, 0x80 + m[src] % 0x10] + Bytes32(disp - (moved + 4)), 2, 4))
  }

  predicate IsPrefixRow(e: Entry)
  {
    e == Prefix || e == Segment || e == Operand || e == Address || e == Repne || e == Rep
  }

  function FlagsAfter(e: Entry, fl: Flags): Flags
  {
    match e
    case Operand => fl.(op16 := true)
    case Address => fl.(addr16 := true)
    case Repne => fl.(f2 := true)
    case Rep => fl.(f3 := true)
    case _ => fl
  }

  /** The `Bytes` row a routine with sub-opcodes selects, from the byte after the opcode. */
  function SubRow(e: Entry, modRm: byte, fl: Flags): (r: Entry)
    ensures r.Bytes? && PlainRow(r)
  {
    var test := (modRm / 8) % 8 == 0;
    match e
    case Op0F78 => if fl.f2 || fl.op16 then BYTES4 else BYTES2_MOD
    case Op0FB8 => if fl.f3 then BYTES2_MOD else BYTES3_OR5
    case OpF6 => if test then BYTES2_MOD1 else BYTES2_MOD
    case OpF7 => if test then BYTES2_MOD_OPERAND else BYTES2_MOD
    case Op8F =>
      var map_ := modRm % 0x20;
      if map_ == 8 then Bytes(6, 6, 4, 0, false, false)
      else if map_ == 9 then Bytes(5, 5, 4, 0, false, false)
      else if map_ == 10 then Bytes(9, 9, 4, 0, false, false)
      else BYTES2_MOD
    case _ => BYTES2_MOD
  }

  /** Dispatch on a row; `None` stands for an invalid opcode (an assertion failure) or an access
      beyond the end of memory. */
  function CopyEntry(t: Tables, m: Mem, dst: int, src: nat, e: Entry, fl: Flags): Option<Copied>
    decreases |m| - src
  {
    if e.Bytes? then CopyBytes(m, dst, src, e, fl)
    else if src + 1 >= |m| || e.Invalid? then None
    else if IsPrefixRow(e) then
      Prepend(m[src], CopyEntry(t, m, dst + 1, src + 1, t.One(m[src + 1]), FlagsAfter(e, fl)))
    else if e.TwoByte? then
      Prepend(m[src], CopyEntry(t, m, dst + 1, src + 1, t.Two(m[src + 1]), fl))
    else if e.Jump? then CopyJump(m, dst, src)
    else if e.OpVex? && m[src + 1] >= 0xc0 then None
    else CopyBytes(m, dst, src, SubRow(e, m[src + 1], fl), fl)
  }

  function Prepend(b: byte, c: Option<Copied>): Option<Copied>
  {
    match c
    case None => None
    case Some(v) => Some(Copied([b] + v.out, v.len + 1, v.extra))
  }

  /** CopyInstruction: the effect of copying the instruction at `src` to `dst`. */
  function CopyAt(t: Tables, m: Mem, dst: int, src: nat): Option<Copied>
  {
    if src >= |m| then None else CopyEntry(t, m, dst, src, t.One(m[src]), NO_FLAGS)
  }
}

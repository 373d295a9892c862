/** Reference semantics of 32-bit x86 relative control transfers, written from the architecture's
    encoding rules and not from the copier: legacy prefixes, then one opcode, then a displacement
    that is added to the address of the next instruction. A 66h prefix selects 16-bit
    displacements and clears the upper half of EIP, but for XBEGIN, whose abort address keeps it. */
module X86Flow {
  import opened Options
  import opened Memory

  datatype Kind = JumpKind | CallKind | CondKind(cc: int) | LoopKind(op: byte, cx16: bool) | AbortKind

  /** `Relative`: a transfer to `target`, falling through (if conditional) or returning (if a call)
      to `next`. `Plain`: anything else. `Fault`: the bytes run off the end of memory. */
  datatype Flow = Relative(kind: Kind, next: int, target: u32) | Plain | Fault

  predicate IsLegacyPrefix(b: byte)
  {
    || b == 0x26 || b == 0x2e || b == 0x36 || b == 0x3e || b == 0x64 || b == 0x65
    || b == 0x66 || b == 0x67 || b == 0xf0 || b == 0xf2 || b == 0xf3
  }

  predicate IsShort(op: byte) { op == 0xeb || 0x70 <= op <= 0x7f }

  predicate IsLoop(op: byte) { 0xe0 <= op <= 0xe3 }

  predicate IsNear(op: byte) { op == 0xe8 || op == 0xe9 }

  predicate IsNearCond(op: byte) { 0x80 <= op <= 0x8f }

  function ShortKind(op: byte): Kind { if op == 0xeb then JumpKind else CondKind(op % 0x10) }

  function NearKind(op: byte): Kind { if op == 0xe8 then CallKind else JumpKind }

  /** Where EIP goes when the transfer is taken. */
  function Land(next: int, disp: int, op16: bool): u32
  {
    if op16 then (next + disp) % 0x1_0000 else (next + disp) % SPACE
  }

  function Disp8(m: Mem, a: nat): int { Signed(At(m, a), 0x100) }

  function NearFlow(m: Mem, a: nat, kind: Kind, op16: bool): Flow
  {
    if op16 then
      if a + 2 > |m| then Fault
      else Relative(kind, a + 2, Land(a + 2, Signed(Read16(m, a), 0x1_0000), true))
    else
    if a + 4 > |m| then Fault
    else Relative(kind, a + 4, Land(a + 4, Signed(Read32(m, a), SPACE), false))
  }

  /** XBEGIN is C7 F8 and a displacement, here at `a`. */
  function AbortFlow(m: Mem, a: nat, op16: bool): Flow
  {
    var size := if op16 then 2 else 4;
    if a + size > |m| then Fault
    else Relative(AbortKind, a + size, Land(a + size, AbortDisp(m, a, op16), false))
  }

  function AbortDisp(m: Mem, a: nat, op16: bool): int
  {
    if op16 then Signed(Read16(m, a), 0x1_0000) else Signed(Read32(m, a), SPACE)
  }

  /** Decodes the instruction at `a`, given the size prefixes already seen. */
  function FlowFrom(m: Mem, a: nat, op16: bool, addr16: bool): Flow
    decreases |m| - a
  {
    if a >= |m| then Fault
    else
      var op := m[a];
      if IsLegacyPrefix(op) then FlowFrom(m, a + 1, op16 || op == 0x66, addr16 || op == 0x67)
      else if IsShort(op) || IsLoop(op) then
        if a + 1 >= |m| then Fault
        else
          var kind := if IsLoop(op) then LoopKind(op, addr16) else ShortKind(op);
          Relative(kind, a + 2, Land(a + 2, Disp8(m, a + 1), op16))
      else if IsNear(op) then NearFlow(m, a + 1, NearKind(op), op16)
      else if op == 0x0f then
        if a + 1 >= |m| then Fault
        else if IsNearCond(m[a + 1]) then NearFlow(m, a + 2, CondKind(m[a + 1] % 0x10), op16)
        else Plain
      else if op == 0xc7 then
        if a + 1 >= |m| then Fault
        else if m[a + 1] == 0xf8 then AbortFlow(m, a + 2, op16)
        else Plain
      else Plain
  }

  function FlowAt(m: Mem, a: nat): Flow { FlowFrom(m, a, false, false) }

  /** An unprefixed `FF 25`: a jump through the word its operand addresses. */
  predicate IsIndirectJmp(m: Mem, a: int) { At(m, a) == 0xff && At(m, a + 1) == 0x25 }

  /** The address executed after an unconditional jump at `a`, direct or through memory. */
  function JumpsTo(m: Mem, a: nat): Option<u32>
  {
    match FlowAt(m, a)
    case Relative(JumpKind, _, target) => Some(target)
    case _ => if IsIndirectJmp(m, a) then Some(Read32(m, Read32(m, a + 2))) else None
  }

  /** Where `k` jumps in a row, the first of them at `a`, lead. */
  function Jumping(m: Mem, a: nat, k: nat): Option<nat>
    decreases k
  {
    if k == 0 then Some(a)
    else
      match JumpsTo(m, a)
      case None => None
      case Some(b) => Jumping(m, b, k - 1)
  }

  /** Execution does not go on behind the instruction at `a`: an unprefixed jump, a jump through memory
      with at most a segment prefix, a return or a breakpoint. */
  predicate Terminal(m: Mem, a: nat)
  {
    || (!IsLegacyPrefix(At(m, a)) && JumpsTo(m, a).Some?)
    || (IsSegment(At(m, a)) && IsIndirectJmp(m, a + 1))
    || At(m, a) in {0xc2, 0xc3, 0xcc}
    || (At(m, a) == 0xf3 && At(m, a + 1) == 0xc3)
  }

  predicate IsSegment(b: byte) { b in {0x26, 0x2e, 0x36, 0x3e, 0x64, 0x65} }
}

/** Bytes, 32-bit words and a flat 32-bit address space. */
module Memory {

  type byte = b: int | 0 <= b < 0x100

  type u32 = x: int | 0 <= x < 0x1_0000_0000

  const SPACE := 0x1_0000_0000

  type Mem = seq<byte>

  /** Truncation to 32 bits, as a cast to DWORD does. */
  function Wrap(x: int): u32 { x % SPACE }

  /** Reinterpretation of an unsigned value of the given modulus as signed. */
  function Signed(x: int, modulus: int): int
    requires modulus > 0
  {
    var r := x % modulus;
    if 2 * r < modulus then r else r - modulus
  }

  function Bytes16(x: int): (s: seq<byte>)
    ensures |s| == 2
  {
    [x % 0x100, (x / 0x100) % 0x100]
  }

  /** Little-endian encoding of the low 32 bits of `x`. */
  function Bytes32(x: int): (s: seq<byte>)
    ensures |s| == 4
  {
    var x1 := x / 0x100;
    var x2 := x1 / 0x100;
    var x3 := x2 / 0x100;
    [x % 0x100, x1 % 0x100, x2 % 0x100, x3 % 0x100]
  }

  function Pack16(b0: int, b1: int): int { b0 + 0x100 * b1 }

  function Pack32(b0: int, b1: int, b2: int, b3: int): int
  {
    b0 + 0x100 * b1 + 0x1_0000 * b2 + 0x100_0000 * b3
  }

  /** The byte at `a`; reads outside the memory are given a value so that specifications are total. */
  function At(m: Mem, a: int): byte { if 0 <= a < |m| then m[a] else 0 }

  function Read16(m: Mem, a: int): int { Pack16(At(m, a), At(m, a + 1)) }

  function Read32(m: Mem, a: int): u32 { Pack32(At(m, a), At(m, a + 1), At(m, a + 2), At(m, a + 3)) }

  lemma ReadZero(m: Mem, a: int)
    requires At(m, a) == 0 && At(m, a + 1) == 0 && At(m, a + 2) == 0 && At(m, a + 3) == 0
    ensures Read32(m, a) == 0
  {
  }

  lemma Read16OfBytes(x: int)
    ensures Read16(Bytes16(x), 0) == x % 0x1_0000
  {
    var x1 := x / 0x100;
    var x2 := x1 / 0x100;
    assert x == 0x1_0000 * x2 + Pack16(x % 0x100, x1 % 0x100);
  }

  lemma Read32OfBytes(x: int)
    ensures Read32(Bytes32(x), 0) == x % SPACE
  {
    var x1 := x / 0x100;
    var x2 := x1 / 0x100;
    var x3 := x2 / 0x100;
    var x4 := x3 / 0x100;
    assert x == SPACE * x4 + Pack32(x % 0x100, x1 % 0x100, x2 % 0x100, x3 % 0x100);
  }

  lemma Bytes32OfRead(m: Mem, a: int)
    ensures Bytes32(Read32(m, a)) == [At(m, a), At(m, a + 1), At(m, a + 2), At(m, a + 3)]
  {
    var x: int := Read32(m, a);
    var x1 := x / 0x100;
    var x2 := x1 / 0x100;
    assert x1 == At(m, a + 1) + 0x100 * (At(m, a + 2) as int) + 0x1_0000 * (At(m, a + 3) as int);
    assert x2 == At(m, a + 2) + 0x100 * (At(m, a + 3) as int);
  }

  /** The memory after copying `s` to address `a`. */
  function Store(m: Mem, a: int, s: seq<byte>): (r: Mem)
    ensures |r| == |m|
    ensures forall i :: 0 <= i < |m| ==> r[i] == if a <= i < a + |s| then s[i - a] else m[i]
  {
    seq(|m|, i requires 0 <= i < |m| => if a <= i < a + |s| then s[i - a] else m[i])
  }

  function Store32(m: Mem, a: int, x: int): (r: Mem) { Store(m, a, Bytes32(x)) }

  lemma ReadStored(m: Mem, a: int, x: int)
    requires 0 <= a && a + 4 <= |m|
    ensures Read32(Store32(m, a, x), a) == x % SPACE
  {
    Read32OfBytes(x);
  }

  lemma ReadBytes(m: Mem, a: int, x: int)
    requires 0 <= a && a + 4 <= |m| && m[a..a + 4] == Bytes32(x)
    ensures Read32(m, a) == x % SPACE
  {
    Read32OfBytes(x);
    assert m[a] == m[a..a + 4][0] && m[a + 1] == m[a..a + 4][1] && m[a + 2] == m[a..a + 4][2]
           && m[a + 3] == m[a..a + 4][3];
  }

  /** Agreement of two memories on `[lo, hi)`. */
  ghost predicate Agree(m: seq<byte>, n: seq<byte>, lo: int, hi: int)
  {
    && |m| == |n|
    && forall i :: lo <= i < hi && 0 <= i < |m| ==> m[i] == n[i]
  }

  /** The next multiple of eight. */
  function QuadAlign(n: int): int { (n + 7) / 8 * 8 }

  function Fill(n: nat, v: byte): (s: seq<byte>)
    ensures |s| == n && forall i :: 0 <= i < n ==> s[i] == v
  {
    seq(n, _ => v)
  }

  /** The process address space: every field of every structure below lives in it. */
  class AddressSpace {
    var b: seq<byte>

    ghost predicate Valid()
      reads this
    {
      |b| == SPACE
    }
  }
}

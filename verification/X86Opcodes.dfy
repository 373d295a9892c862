/** The opcode tables of the 32-bit copier (s_rceCopyTable, s_rceCopyTable0F). Rows that only differ in
    reporting a dynamic target are one row here. */
module X86Opcodes {
  import opened Memory
  import opened X86Disasm

  const BYTES1 := Bytes(1, 1, 0, 0, false, false)
  const BYTES1_ADDRESS := Bytes(5, 3, 0, 0, true, false)
  const BYTES2 := Bytes(2, 2, 0, 0, false, false)
  const BYTES3 := Bytes(3, 3, 0, 0, false, false)
  const BYTES3_MOD := Bytes(3, 3, 2, 0, false, false)
  const BYTES3_MOD1 := Bytes(4, 4, 2, 0, false, false)
  const BYTES5_OR7 := Bytes(7, 5, 0, 0, false, false)

  function OneByte(b: byte): Entry
  {
    if (b < 0x40 && b % 8 < 4) || b == 0x63 || 0x84 <= b <= 0x8e || 0xd0 <= b <= 0xd3 || 0xd8 <= b <= 0xdf ||
       b == 0xfe then BYTES2_MOD
    else if (b < 0x40 && b % 8 == 4) || b == 0x6a || b == 0xa8 || 0xb0 <= b <= 0xb7 || b == 0xcd ||
            b == 0xd4 || b == 0xd5 || 0xe4 <= b <= 0xe7 then BYTES2
    else if (b < 0x40 && b % 8 == 5) || b == 0x68 || b == 0xa9 || 0xb8 <= b <= 0xbf then BYTES3_OR5
    else if b == 0x0f then TwoByte
    else if b == 0x26 || b == 0x2e || b == 0x36 || b == 0x3e || b == 0x64 || b == 0x65 then Segment
    else if b == 0x62 || b == 0xc4 || b == 0xc5 then OpVex
    else if b == 0x66 then Operand
    else if b == 0x67 then Address
    else if b == 0x69 || b == 0x81 || b == 0xc7 then BYTES2_MOD_OPERAND
    else if b == 0x6b || b == 0x80 || b == 0x82 || b == 0x83 || b == 0xc0 || b == 0xc1 || b == 0xc6 then BYTES2_MOD1
    else if 0x70 <= b <= 0x7f || b == 0xeb then Jump
    else if b == 0x8f then Op8F
    else if b == 0x9a || b == 0xea then BYTES5_OR7
    else if 0xa0 <= b <= 0xa3 then BYTES1_ADDRESS
    else if b == 0xc2 || b == 0xca then BYTES3
    else if b == 0xc8 then BYTES4
    else if b == 0xd6 then Invalid
    else if 0xe0 <= b <= 0xe3 then BYTES2_CANT_JUMP
    else if b == 0xe8 || b == 0xe9 then BYTES3_OR5_TARGET
    else if b == 0xf0 then Prefix
    else if b == 0xf2 then Repne
    else if b == 0xf3 then Rep
    else if b == 0xf6 then OpF6
    else if b == 0xf7 then OpF7
    else if b == 0xff then OpFF
    else BYTES1
  }

  function AfterEscape(b: byte): Entry
  {
    if b == 0x00 then Op0F00
    else if b == 0x04 || b == 0x0a || b == 0x0c || b == 0x25 || b == 0x27 || b == 0x36 || b == 0x39 ||
            0x3b <= b <= 0x3f || b == 0x7a || b == 0x7b || b == 0xb9 || b == 0xff then Invalid
    else if 0x05 <= b <= 0x09 || b == 0x0b || b == 0x0e || 0x30 <= b <= 0x35 || b == 0x37 || b == 0x77 ||
            0xa0 <= b <= 0xa2 || 0xa8 <= b <= 0xaa || 0xc8 <= b <= 0xcf then BYTES1
    else if b == 0x0f || 0x70 <= b <= 0x73 || b == 0xa4 || b == 0xac || b == 0xba || b == 0xc2
            || 0xc4 <= b <= 0xc6 then BYTES2_MOD1
    else if b == 0x38 then BYTES3_MOD
    else if b == 0x3a then BYTES3_MOD1
    else if b == 0x78 then Op0F78
    else if 0x80 <= b <= 0x8f then BYTES3_OR5_TARGET
    else if b == 0xb8 then Op0FB8
    else BYTES2_MOD
  }

  const TABLES := Tables(seq(0x100, i requires 0 <= i < 0x100 => OneByte(i)),
                         seq(0x100, i requires 0 <= i < 0x100 => AfterEscape(i)))

  lemma OneRows(b: byte)
    ensures OneRowOk(b, OneByte(b))
  {
  }

  lemma OneSizes(b: byte)
    ensures OneSized(b, OneByte(b))
  {
    if b < 0x40 {
      LowSizes(b);
    } else if b < 0xa0 {
      MiddleSizes(b);
    } else {
      HighSizes(b);
    }
  }

  lemma LowSizes(b: byte)
    requires b < 0x40
    ensures OneSized(b, OneByte(b))
  {
  }

  lemma MiddleSizes(b: byte)
    requires 0x40 <= b < 0xa0
    ensures OneSized(b, OneByte(b))
  {
  }

  lemma HighSizes(b: byte)
    requires 0xa0 <= b
    ensures OneSized(b, OneByte(b))
  {
  }

  lemma TwoRows(b: byte)
    ensures TwoRowOk(b, AfterEscape(b))
  {
  }

  lemma TwoSizes(b: byte)
    ensures TwoSized(b, AfterEscape(b))
  {
  }

  /** The tables meet all the copier's correctness rests on. */
  lemma RealTables()
    ensures TablesOk(TABLES)
  {
    hide OneRowOk, TwoRowOk, OneSized, TwoSized, OneByte, AfterEscape;
    forall b: byte ensures OneRowOk(b, TABLES.One(b)) && OneSized(b, TABLES.One(b)) {
      OneRows(b);
      OneSizes(b);
    }
    forall b: byte ensures TwoRowOk(b, TABLES.Two(b)) && TwoSized(b, TABLES.Two(b)) {
      TwoRows(b);
      TwoSizes(b);
    }
  }
}

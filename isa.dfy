/** Constants of the machine and the opcode decoder: a 16-bit instruction is
    the big-endian pair of bytes at PC, split into its bit-fields. */
module Isa {
  import opened Bits

  const MemorySize: nat := 4096
  const RegisterCount: nat := 16
  const StackDepth: nat := 16
  const KeyCount: nat := 16
  const ScreenWidth: nat := 64
  const ScreenHeight: nat := 32
  const ScreenSize: nat := 2048
  /** Where programs are loaded and where PC starts. */
  const LoadAddress: word := 0x200
  /** Index of the flag register VF. */
  const VF: nibble := 0xF

  /** The sixteen hexadecimal digit glyphs, five rows of 8 pixels each,
      stored from address 0. */
  const Font: seq<byte> := [
    0xF0, 0x90, 0x90, 0x90, 0xF0, // 0
    0x20, 0x60, 0x20, 0x20, 0x70, // 1
    0xF0, 0x10, 0xF0, 0x80, 0xF0, // 2
    0xF0, 0x10, 0xF0, 0x10, 0xF0, // 3
    0x90, 0x90, 0xF0, 0x10, 0x10, // 4
    0xF0, 0x80, 0xF0, 0x10, 0xF0, // 5
    0xF0, 0x80, 0xF0, 0x90, 0xF0, // 6
    0xF0, 0x10, 0x20, 0x40, 0x40, // 7
    0xF0, 0x90, 0xF0, 0x90, 0xF0, // 8
    0xF0, 0x90, 0xF0, 0x10, 0xF0, // 9
    0xF0, 0x90, 0xF0, 0x90, 0x90, // A
    0xE0, 0x90, 0xE0, 0x90, 0xE0, // B
    0xF0, 0x80, 0x80, 0x80, 0xF0, // C
    0xE0, 0x90, 0x90, 0x90, 0xE0, // D
    0xF0, 0x80, 0xF0, 0x80, 0xF0, // E
    0xF0, 0x80, 0xF0, 0x80, 0x80  // F
  ]

  /** The bit-fields of an opcode `uxyn`: group `u`, registers `x` and `y`,
      low byte `kk`, low nibble `n` and 12-bit address `nnn`. */
  datatype Instr = Instr(u: nibble, x: nibble, y: nibble, kk: byte, n: nibble, nnn: nat)

  /** The opcode fetched from the two bytes at PC: `(hi << 8) | lo`. Since
      `lo < 256` the OR of the shifted high byte is an addition. */
  function Opcode(hi: byte, lo: byte): (op: word)
    ensures op / 0x100 == hi && op % 0x100 == lo
  {
    hi * 0x100 + lo
  }

  /** Field extraction by shifts and masks: `(op >> s) & m` is
      `(op / 2^s) % (m + 1)` on a non-negative opcode. */
  function Decode(op: word): (ins: Instr)
    ensures ins.nnn < 0x1000
    ensures op == ins.u * 0x1000 + ins.nnn
    ensures ins.nnn == ins.x * 0x100 + ins.kk
    ensures ins.kk == ins.y * 0x10 + ins.n
  {
    FieldsNest(op);
    Instr(u   := (op / 0x1000) % 0x10,
          x   := (op / 0x100) % 0x10,
          y   := (op / 0x10) % 0x10,
          kk  := op % 0x100,
          n   := op % 0x10,
          nnn := op % 0x1000)
  }

  /** Division with remainder by a power of sixteen has one answer. */
  lemma DivModUnique(a: int, q: int, r: int, d: int)
    requires d == 0x10 || d == 0x100 || d == 0x1000
    requires 0 <= r < d && a == q * d + r
    ensures a / d == q && a % d == r
  {
  }

  /** The masked fields nest inside each other: the nibble of x is the top
      of nnn, kk is the bottom of nnn, y and n are the halves of kk. */
  lemma FieldsNest(op: word)
    ensures (op / 0x1000) % 0x10 == op / 0x1000
    ensures (op / 0x100) % 0x10 == (op % 0x1000) / 0x100
    ensures (op % 0x1000) % 0x100 == op % 0x100
    ensures (op / 0x10) % 0x10 == (op % 0x100) / 0x10
    ensures (op % 0x100) % 0x10 == op % 0x10
  {
    var u, nnn := op / 0x1000, op % 0x1000;
    var x, kk := nnn / 0x100, nnn % 0x100;
    assert op == (u * 0x10 + x) * 0x100 + kk;
    DivModUnique(op, u * 0x10 + x, kk, 0x100);
    DivModUnique(op / 0x100, u, x, 0x10);
    var y, n := kk / 0x10, kk % 0x10;
    assert op == ((u * 0x10 + x) * 0x10 + y) * 0x10 + n;
    DivModUnique(op, (u * 0x10 + x) * 0x10 + y, n, 0x10);
    DivModUnique(op / 0x10, u * 0x10 + x, y, 0x10);
  }

  /** The opcode an instruction's nibbles spell out. */
  function Encode(ins: Instr): (op: int)
  {
    ins.u * 0x1000 + ins.x * 0x100 + ins.y * 0x10 + ins.n
  }

  /** An instruction whose wide fields agree with its nibbles. */
  predicate Consistent(ins: Instr)
  {
    ins.kk == ins.y * 0x10 + ins.n && ins.nnn == ins.x * 0x100 + ins.kk
  }

  /** Decoding loses nothing: the fields spell the opcode back. */
  lemma EncodeDecode(op: word)
    ensures Consistent(Decode(op))
    ensures Encode(Decode(op)) == op
  {
  }

  /** Every consistent instruction is the decoding of its encoding. */
  lemma DecodeEncode(ins: Instr)
    requires Consistent(ins)
    ensures 0 <= Encode(ins) < 0x1_0000
    ensures Decode(Encode(ins)) == ins
  {
    var op := ins.u * 0x1000 + ins.nnn;
    assert Encode(ins) == op;
    DivModUnique(op, ins.u, ins.nnn, 0x1000);
    var d := Decode(op);
    DivModUnique(ins.nnn, ins.x, ins.kk, 0x100);
    DivModUnique(d.nnn, d.x, d.kk, 0x100);
    DivModUnique(ins.kk, ins.y, ins.n, 0x10);
    DivModUnique(d.kk, d.y, d.n, 0x10);
  }

  /** In terms of the fetched bytes: the group and x are the two nibbles of
      the high byte, kk is the low byte, y and n its two nibbles. */
  lemma DecodeBytes(hi: byte, lo: byte)
    ensures Decode(Opcode(hi, lo)).u == hi / 0x10
    ensures Decode(Opcode(hi, lo)).x == hi % 0x10
    ensures Decode(Opcode(hi, lo)).kk == lo
    ensures Decode(Opcode(hi, lo)).y == lo / 0x10
    ensures Decode(Opcode(hi, lo)).n == lo % 0x10
  {
  }
}

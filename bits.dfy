/** Fixed-width unsigned integers of the interpreter and the bitwise
    operators it applies to them. Widths are explicit: an assignment of an
    `int` into a byte or a word truncates, and `ToByte`/`ToWord` say so. */
module Bits {

  /** `uint8_t`, the source's `byte`: registers, timers, memory cells, pixels. */
  type byte = x: int | 0 <= x < 0x100

  /** `uint16_t`, the source's `word`: I, PC, sp and the stack slots. */
  type word = x: int | 0 <= x < 0x1_0000

  /** A 4-bit field of an opcode. */
  type nibble = x: int | 0 <= x < 0x10

  /** Storing an `int` into a byte keeps its low eight bits. */
  function ToByte(x: int): (r: byte)
    ensures 0 <= x < 0x100 ==> r == x
    ensures (r - x) % 0x100 == 0
  {
    x % 0x100
  }

  /** Storing an `int` into a word keeps its low sixteen bits. */
  function ToWord(x: int): (r: word)
    ensures 0 <= x < 0x1_0000 ==> r == x
    ensures (r - x) % 0x1_0000 == 0
  {
    x % 0x1_0000
  }

  function Or(a: byte, b: byte): byte
  {
    ((a as bv8) | (b as bv8)) as int
  }

  function And(a: byte, b: byte): byte
  {
    ((a as bv8) & (b as bv8)) as int
  }

  function Xor(a: byte, b: byte): byte
  {
    ((a as bv8) ^ (b as bv8)) as int
  }

  /** `0x80 | x` for a register index sets the high bit and keeps the index. */
  lemma OrHighBit(x: nibble)
    ensures Or(0x80, x) == 0x80 + x
  {
  }

  /** `a & 0x7f` on a latch value of the form `0x80 + x` gives back x. */
  lemma AndLowBits(a: byte)
    requires 0x80 <= a < 0x90
    ensures And(a, 0x7f) == a - 0x80
  {
  }

  /** Toggling the low bit swaps 0 and 1. */
  lemma XorOneSwaps()
    ensures Xor(0, 1) == 1 && Xor(1, 1) == 0
  {
  }
}

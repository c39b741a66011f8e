/**
 * The machine words of the interpreter. Go's uint8 and uint16 values are
 * modelled as bounded integers; every sum, difference and shift that can
 * leave the range is reduced explicitly (`% 256`, `% 0x10000`), which is what
 * Go's unsigned arithmetic does.
 */
module Words {

  /** A Go uint8. */
  type Byte = b: int | 0 <= b < 256

  /** A Go uint16. */
  type Word = w: int | 0 <= w < 0x10000

  /** A register or key index: the 4-bit fields X, Y and N of an opcode. */
  type Nibble = k: int | 0 <= k < 16

  /** Bitwise AND of two bytes (Go's `&` on uint8). */
  function BitAnd(a: Byte, b: Byte): Byte
  {
    ((a as bv8) & (b as bv8)) as int
  }

  /** Bitwise OR of two bytes (Go's `|` on uint8). */
  function BitOr(a: Byte, b: Byte): Byte
  {
    ((a as bv8) | (b as bv8)) as int
  }

  /** Bitwise XOR of two bytes (Go's `^` on uint8). */
  function BitXor(a: Byte, b: Byte): Byte
  {
    ((a as bv8) ^ (b as bv8)) as int
  }

  /** A bit pattern read as a byte and back is the same pattern. */
  lemma BitsOfByte(c: bv8)
    ensures (c as int) as bv8 == c
  {
  }

  /** p AND q has no bit outside q. */
  lemma AndWithin(p: bv8, q: bv8)
    ensures (p & q) & !q == 0
  {
  }
}

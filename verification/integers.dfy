/** Width-tagged integers of the assembler's expression language (asm_6502/grammar.py,
    class `Integer`): a value together with a flag telling whether it is a 16-bit word
    or an 8-bit byte. Values are unbounded; the width tag is bookkeeping only and is
    never used to truncate, except by the explicit low-byte and high-byte extractions. */
module Integers {

  const ByteMax := 0xFF

  /** The low eight bits of a Python integer, read in two's complement for a negative `v`. */
  function LowOf(v: int): (r: int)
    ensures 0 <= r <= ByteMax
    ensures (v - r) % 0x100 == 0
  {
    v % 0x100
  }

  /** Bits 8 to 15 of a Python integer; the right shift floors, so negatives wrap. */
  function HighOf(v: int): (r: int)
    ensures 0 <= r <= ByteMax
  {
    (v / 0x100) % 0x100
  }

  /** Python's `a // b`: the floor of the quotient, for a divisor of either sign. */
  function FloorDivide(a: int, b: int): (q: int)
    requires b != 0
    ensures b > 0 ==> q * b <= a < q * b + b
    ensures b < 0 ==> q * b + b < a <= q * b
  {
    if b > 0 then a / b else (-a) / (-b)
  }

  /** The high and low byte of a value together give the value modulo 0x10000; for an
      in-range address they give the address back. */
  lemma {:induction false} HighLowRecompose(v: int)
    ensures HighOf(v) * 0x100 + LowOf(v) == v % 0x10000
    ensures 0 <= v < 0x10000 ==> HighOf(v) * 0x100 + LowOf(v) == v
  {
    var q := v / 0x100;
    assert v == q * 0x100 + LowOf(v);
    var h := q % 0x100;
    var t := q / 0x100;
    assert q == t * 0x100 + h;
    assert v == t * 0x10000 + (h * 0x100 + LowOf(v));
    assert 0 <= h * 0x100 + LowOf(v) < 0x10000;
  }

  datatype Integer = Integer(isWord: bool, value: int)

  /** `Integer.zero()`: the byte-width zero. */
  const Zero := Integer(false, 0)

  /** `__add__`: the exact sum, widened to a word when an operand is a word or the sum
      exceeds a byte. */
  function Add(a: Integer, b: Integer): (r: Integer)
    ensures r.value == a.value + b.value
    ensures a.isWord || b.isWord ==> r.isWord
    ensures !r.isWord ==> r.value <= ByteMax
    ensures r.isWord ==> a.isWord || b.isWord || r.value > ByteMax
  {
    var v := a.value + b.value;
    Integer(a.isWord || b.isWord || v > ByteMax, v)
  }

  /** `__sub__`: the exact difference; a word iff an operand is a word (no widening on
      overflow, so a byte-width difference may lie outside 0..0xFF). */
  function Sub(a: Integer, b: Integer): (r: Integer)
    ensures r.value == a.value - b.value
    ensures r.isWord <==> a.isWord || b.isWord
  {
    Integer(a.isWord || b.isWord, a.value - b.value)
  }

  /** `__mul__`: the exact product, widened like the sum. */
  function Mul(a: Integer, b: Integer): (r: Integer)
    ensures r.value == a.value * b.value
    ensures a.isWord || b.isWord ==> r.isWord
    ensures !r.isWord ==> r.value <= ByteMax
    ensures r.isWord ==> a.isWord || b.isWord || r.value > ByteMax
  {
    var v := a.value * b.value;
    Integer(a.isWord || b.isWord || v > ByteMax, v)
  }

  /** `__floordiv__`: the floored quotient; a word iff an operand is a word. Python raises
      on a zero divisor, which callers exclude. */
  function Div(a: Integer, b: Integer): (r: Integer)
    requires b.value != 0
    ensures b.value > 0 ==> r.value * b.value <= a.value < r.value * b.value + b.value
    ensures b.value < 0 ==> r.value * b.value + b.value < a.value <= r.value * b.value
    ensures r.isWord <==> a.isWord || b.isWord
  {
    Integer(a.isWord || b.isWord, FloorDivide(a.value, b.value))
  }

  /** `__neg__`: the negated value with the width unchanged. */
  function Neg(a: Integer): (r: Integer)
    ensures r.value == -a.value && r.isWord == a.isWord
  {
    Integer(a.isWord, -a.value)
  }

  /** Negation is its own inverse. */
  lemma NegInvolutive(a: Integer)
    ensures Neg(Neg(a)) == a
  {
  }

  /** `low_byte`: always byte-width, masked into 0..0xFF. */
  function LowByte(a: Integer): (r: Integer)
    ensures !r.isWord && 0 <= r.value <= ByteMax
    ensures (a.value - r.value) % 0x100 == 0
  {
    Integer(false, LowOf(a.value))
  }

  /** `high_byte`: always byte-width, masked into 0..0xFF. */
  function HighByte(a: Integer): (r: Integer)
    ensures !r.isWord && 0 <= r.value <= ByteMax
    ensures 0 <= a.value < 0x10000 ==> r.value * 0x100 + LowByte(a).value == a.value
  {
    HighLowRecompose(a.value);
    Integer(false, HighOf(a.value))
  }

  /** Sums and products are insensitive to operand order, in value and in width. */
  lemma AddMulCommute(a: Integer, b: Integer)
    ensures Add(a, b) == Add(b, a) && Mul(a, b) == Mul(b, a)
  {
  }

  /** The LO/HI test vector: the word `$00AB + $CD00` splits into 0xAB and 0xCD. */
  lemma LowHighExample()
    ensures Add(Integer(true, 0x00AB), Integer(true, 0xCD00)) == Integer(true, 0xCDAB)
    ensures LowByte(Integer(true, 0xCDAB)) == Integer(false, 0xAB)
    ensures HighByte(Integer(true, 0xCDAB)) == Integer(false, 0xCD)
  {
  }
}

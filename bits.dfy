/** Byte- and clock-level helpers shared by the Keybus model. */
module Bits {

  /** An Arduino `unsigned long`, the type of millis() and micros(). */
  type u32 = x: int | 0 <= x < 0x1_0000_0000

  /** `now - past` on unsigned longs: the elapsed time, correct across one wrap of the counter. */
  function Since(now: u32, past: u32): (d: u32)
    ensures past <= now ==> d == now - past
    ensures now < past ==> d == now + 0x1_0000_0000 - past
  {
    if past <= now then now - past else now + 0x1_0000_0000 - past
  }

  /** Since is the C subtraction of two unsigned longs, taken modulo 2^32. */
  lemma SinceIsUnsignedSubtraction(now: u32, past: u32)
    ensures Since(now, past) == (now - past) % 0x1_0000_0000
  {
  }

  /** The single-bit mask 1 << i. */
  function Mask(i: nat): (m: bv8)
    requires i < 8
  {
    match i
    case 0 => 0x01
    case 1 => 0x02
    case 2 => 0x04
    case 3 => 0x08
    case 4 => 0x10
    case 5 => 0x20
    case 6 => 0x40
    case _ => 0x80
  }

  /** Arduino's bitRead(b, i), tested against the mask of bit i. */
  predicate Bit(b: bv8, i: nat)
    requires i < 8
  {
    b & Mask(i) != 0
  }

  /** The mask test is bitRead's `(b >> i) & 1`, bit by bit. */
  lemma BitIsShift(b: bv8)
    ensures Bit(b, 0) == (b & 1 == 1) && Bit(b, 1) == ((b >> 1) & 1 == 1)
    ensures Bit(b, 2) == ((b >> 2) & 1 == 1) && Bit(b, 3) == ((b >> 3) & 1 == 1)
    ensures Bit(b, 4) == ((b >> 4) & 1 == 1) && Bit(b, 5) == ((b >> 5) & 1 == 1)
    ensures Bit(b, 6) == ((b >> 6) & 1 == 1) && Bit(b, 7) == ((b >> 7) & 1 == 1)
  {
  }

  /** One capture step on a byte: `b <<= 1`, then `b |= 1` when the sampled line is high. */
  function ShiftIn(b: bv8, high: bool): (r: bv8)
    ensures Bit(r, 0) == high
    ensures forall i :: 1 <= i < 8 ==> Bit(r, i) == Bit(b, i - 1)
  {
    (b << 1) | (if high then 1 else 0)
  }

  /** The byte left by shifting `bits` into a zero byte, first bit first: the last bit
      sampled is bit 0, and only the last eight bits survive. */
  function Pack(bits: seq<bool>): (r: bv8)
    ensures forall i :: 0 <= i < 8 ==> Bit(r, i) == (i < |bits| && bits[|bits| - 1 - i])
  {
    if bits == [] then 0 else ShiftIn(Pack(bits[..|bits| - 1]), bits[|bits| - 1])
  }
}

/** The `ISNAN` macro: a test on the 32-bit pattern of a `float`, read as an
    IEEE 754 binary32 value. The fields follow section 3.4 of IEEE 754-2019
    (binary interchange format encodings): 1 sign bit, an 8-bit biased
    exponent and a 23-bit trailing significand. */
module FloatBits {

  const SIGN_BIT: bv32 := 0x8000_0000
  const EXPONENT_MASK: bv32 := 0x7F80_0000
  const SIGNIFICAND_MASK: bv32 := 0x007F_FFFF

  function Sign(b: bv32): (s: bv32)
    ensures s <= 1
  {
    b >> 31
  }

  function Exponent(b: bv32): (e: bv32)
    ensures e <= 0xFF
  {
    (b >> 23) & 0xFF
  }

  function TrailingSignificand(b: bv32): (t: bv32)
    ensures t <= 0x7F_FFFF
  {
    b & SIGNIFICAND_MASK
  }

  /** The bit pattern with the given fields. */
  function Encode(s: bv32, e: bv32, t: bv32): (b: bv32)
    requires s <= 1 && e <= 0xFF && t <= 0x7F_FFFF
  {
    (s << 31) | (e << 23) | t
  }

  /** Every pattern is the encoding of its three fields, and the fields of an
      encoding are the ones it was built from. */
  lemma FieldsRoundTrip(b: bv32, s: bv32, e: bv32, t: bv32)
    requires s <= 1 && e <= 0xFF && t <= 0x7F_FFFF
    ensures Encode(Sign(b), Exponent(b), TrailingSignificand(b)) == b
    ensures Sign(Encode(s, e, t)) == s
    ensures Exponent(Encode(s, e, t)) == e
    ensures TrailingSignificand(Encode(s, e, t)) == t
  {
  }

  /** `ISNAN(x)`: the exponent bits are all ones and the trailing
      significand bits are not all zero, which is exactly the NaN encoding. */
  predicate IsNaN(b: bv32)
    ensures IsNaN(b) <==> Exponent(b) == 0xFF && TrailingSignificand(b) != 0
  {
    (b & EXPONENT_MASK) == EXPONENT_MASK && (b & SIGNIFICAND_MASK) != 0
  }

  /** Flipping the sign bit never changes the answer. */
  lemma IsNaNIgnoresSign(b: bv32)
    ensures IsNaN(b ^ SIGN_BIT) == IsNaN(b)
  {
  }

  /** The two infinities share the all-ones exponent but are not NaN. */
  lemma InfinitiesAreNotNaN()
    ensures !IsNaN(0x7F80_0000) && !IsNaN(0xFF80_0000)
  {
  }

  /** Quiet and signalling NaNs of either sign are NaN. */
  lemma NaNPatterns()
    ensures IsNaN(0x7FC0_0000) && IsNaN(0x7F80_0001) && IsNaN(0xFFFF_FFFF)
  {
  }

  /** Zeros, subnormals and normal numbers (exponent not all ones) are not NaN. */
  lemma FiniteIsNotNaN(b: bv32)
    requires Exponent(b) != 0xFF
    ensures !IsNaN(b)
  {
  }
}

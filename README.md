# Integer points of MathSIMD, in Dafny

MathSIMD is a single C++ header of math value types in the `King` namespace.
Most of it wraps DirectXMath floating-point intrinsics. This project models
the part whose behaviour is exact integer and bit arithmetic:

- `UIntPoint2` (`uint2`): two `unsigned int` lanes. Arithmetic wraps modulo 2^32.
- `IntPoint2` (`int2`) and `IntPoint3` (`int3`): two and three `int` lanes.
  They add unary minus and `MakeAbsolute`.
- The free `Min`, `Max` and `Clamp` over the three point types.
- The `ISNAN` macro, a test on the 32-bit pattern of a `float`.

Layout:

- `cint.dfy` (module `CInt`): C++ integer semantics.
  - `uint32` and `int32` newtypes.
  - Wrap-around conversion to unsigned and two's-complement conversion to signed.
  - `Quot`, C++ `int` division, which truncates toward zero. It is specified by
    `IsTruncQuot`, and the specification is proved to determine the quotient.
- `uint2.dfy`, `int2.dfy`, `int3.dfy` (modules `Uint2`, `Int2`, `Int3`): the
  value algebra of each point type.
  - A `Lanes` datatype.
  - The operators `+ - * /` against a point and against a scalar, and unary `-`.
  - The comparators, `operator bool`, `operator!` and `IsZero`.
  - The free `Min`, `Max` and `Clamp`, with the lemmas that relate them.
- `points.dfy` (module `Points`): the three classes as objects.
  - Each object keeps its lanes in a fixed-size array that the setters,
    compound assignments, `Min`, `Max` and `MakeAbsolute` overwrite in place.
  - Each method's postcondition states the new lanes in terms of the old ones,
    through the value operators. A setter leaves the other lanes unchanged.
  - The argument of a compound assignment may be the object itself.
- `floatbits.dfy` (module `FloatBits`): `ISNAN` on `bv32`, with the field
  decomposition of section 3.4 of IEEE 754-2019 (binary interchange format
  encodings).

Platform assumptions:

- The header includes `windows.h` and targets MSVC. On that platform `long` and
  `unsigned long` are 32 bits. So every `long` and `unsigned long` overload is
  modelled by the `int32` or `uint32` one.
- `static_cast<unsigned int>` of a negative `int` wraps modulo 2^32.
- `static_cast<int>` of an `unsigned int` above `INT_MAX` takes the
  two's-complement reading. That is what MSVC does, and C++20 defines it so.
- Signed overflow is undefined behaviour. So every signed operator requires
  that the exact result fits in `int`.
- Division requires non-zero divisor lanes. Signed division also excludes
  `INT_MIN / -1`.
- Negation and `MakeAbsolute` require that no lane is `INT_MIN`.

## Model

| member | source | states |
|---|---|---|
| CInt.Wrap | MathSIMD.h:255-257 | an unsigned lane result is the unique value in [0, 2^32) congruent to the exact result |
| CInt.ToUnsigned | MathSIMD.h:290 | `static_cast<unsigned int>` keeps the value modulo 2^32 and keeps non-negative values |
| CInt.ToSigned | MathSIMD.h:420 | `static_cast<int>` of an unsigned keeps the value modulo 2^32 and keeps values up to INT_MAX |
| CInt.UnsignedSignedRoundTrip | MathSIMD.h:424 | converting unsigned to signed and back restores the value |
| CInt.SignedUnsignedRoundTrip | MathSIMD.h:366 | converting signed to unsigned and back restores the value |
| CInt.NatQuot | MathSIMD.h:258 | unsigned division: q*d <= n < (q+1)*d, and q never exceeds n |
| CInt.SubtractionQuot | MathSIMD.h:258 | a reference quotient that counts how often d can be subtracted from n; it never exceeds n |
| CInt.NatQuotIsRepeatedSubtraction | MathSIMD.h:258 | unsigned division equals the repeated-subtraction count for every n and every d >= 1 |
| CInt.Quot | MathSIMD.h:380 | `int` division truncates toward zero: the magnitude is floor(\|a\|/\|b\|), and a non-zero quotient has the sign of a/b; defined only for b != 0 and not INT_MIN / -1 |
| CInt.TruncQuotUnique | MathSIMD.h:380 | the truncating-division specification determines the quotient uniquely |
| CInt.QuotOfProduct | MathSIMD.h:379-380 | (a*b)/b == a for non-zero b when a*b fits, whatever the signs |
| Uint2.Eq | MathSIMD.h:248 | lane-wise `==` holds iff the two points are equal |
| Uint2.Ne | MathSIMD.h:249 | `!=` is exactly the negation of `==` |
| Uint2.Less | MathSIMD.h:250 | `<` holds in every lane, so it implies `<=` and inequality |
| Uint2.Greater | MathSIMD.h:251 | `p > q` iff `q < p` |
| Uint2.GreaterEq | MathSIMD.h:253 | `p >= q` iff `q <= p` |
| Uint2.LessEq | MathSIMD.h:252 | `p <= q` holds iff `q - p` does not wrap in either lane |
| Uint2.LessEqPartialOrder | MathSIMD.h:252 | lane-wise `<=` is reflexive, antisymmetric and transitive |
| Uint2.SomePointsIncomparable | MathSIMD.h:250-253 | some pairs satisfy neither `<` nor `>=` |
| Uint2.NonZero | MathSIMD.h:237 | `operator bool` holds iff the point is not zero |
| Uint2.Empty | MathSIMD.h:237-238 | `operator!` is exactly the negation of `operator bool` |
| Uint2.IsZero | MathSIMD.h:300 | IsZero holds iff both lanes are 0 |
| Uint2.EmptyIffIsZero | MathSIMD.h:300 | `!p` holds iff `p.IsZero()` |
| Uint2.Sub | MathSIMD.h:256 | each lane is congruent to the difference modulo 2^32 |
| Uint2.Add | MathSIMD.h:255 | each lane is congruent to the sum modulo 2^32, and `(p + q) - q == p` for all p, q |
| Uint2.SubAddRoundTrip | MathSIMD.h:255-256 | `(p - q) + q == p` for all p, q |
| Uint2.AddCanWrap | MathSIMD.h:255 | some sums wrap around 2^32 and end up below the point they started from |
| Uint2.Mul | MathSIMD.h:257 | each lane is congruent to the product modulo 2^32 |
| Uint2.Div | MathSIMD.h:258 | each lane is the floor of the quotient, so the result is <= p lane-wise; both divisor lanes must be non-zero |
| Uint2.AddScalar | MathSIMD.h:270 | `p + s` is `p` plus the point with s in every lane |
| Uint2.SubScalar | MathSIMD.h:271 | `p - s` is `p` minus the point with s in every lane |
| Uint2.MulScalar | MathSIMD.h:272 | `p * s` is `p` times the point with s in every lane |
| Uint2.DivScalar | MathSIMD.h:273 | `p / s` is `p` divided by the point with s in every lane; s must be non-zero |
| Uint2.Min | MathSIMD.h:1149 | each lane is taken from one of the inputs, and the result is <= both inputs |
| Uint2.Max | MathSIMD.h:1150 | each lane is taken from one of the inputs, and the result is >= both inputs |
| Uint2.MinMaxAreBounds | MathSIMD.h:1149-1150 | Min is the greatest lower bound and Max the least upper bound lane-wise |
| Uint2.Clamp | MathSIMD.h:1151 | Clamp as written, `Max(Min(c, min), max)`, is never below `max` |
| Uint2.ClampReturnsUpperBound | MathSIMD.h:1151 | whenever min <= max, Clamp as written returns exactly max |
| Uint2.ClampMovesInRangePoint | MathSIMD.h:1151 | Clamp((5,5), (0,0), (10,10)) is (10,10) |
| Uint2.ClampToRange | MathSIMD.h:1151 | corrected clamp: with min <= max the result is in [min, max], and an in-range point is unchanged; with min <= max each lane is min where c is below it, max where c is above it, and c otherwise |
| Int2.Eq | MathSIMD.h:369 | lane-wise `==` holds iff the two points are equal |
| Int2.Ne | MathSIMD.h:370 | `!=` is exactly the negation of `==` |
| Int2.Less | MathSIMD.h:371 | `<` implies `<=` and inequality |
| Int2.Greater | MathSIMD.h:372 | `p > q` iff `q < p` |
| Int2.GreaterEq | MathSIMD.h:374 | `p >= q` iff `q <= p` |
| Int2.LessEq | MathSIMD.h:373 | where `q - p` fits, `p <= q` holds iff `q - p` has no negative lane |
| Int2.LessEqPartialOrder | MathSIMD.h:373 | lane-wise `<=` is a partial order |
| Int2.SomePointsIncomparable | MathSIMD.h:371-374 | some pairs satisfy neither `<` nor `>=` |
| Int2.NonZero | MathSIMD.h:358 | `operator bool` holds iff the point is not zero |
| Int2.Empty | MathSIMD.h:358-359 | `operator!` is exactly the negation of `operator bool` |
| Int2.IsZero | MathSIMD.h:428 | IsZero holds iff both lanes are 0 |
| Int2.EmptyIffIsZero | MathSIMD.h:428 | `!p` holds iff `p.IsZero()` |
| Int2.Neg | MathSIMD.h:376 | negation needs no INT_MIN lane and yields a point that can be negated again; it is zero iff p is |
| Int2.NegInvolutive | MathSIMD.h:376 | `-(-p) == p` when no lane is INT_MIN |
| Int2.Sub | MathSIMD.h:378 | requires the differences to fit in `int`; the result is zero iff p == q, subtracting zero leaves p, and its bits agree with the wrapping `UIntPoint2` subtraction of the same bits |
| Int2.Add | MathSIMD.h:377 | requires the sums to fit; then `(p + q) - q` is defined and equals p |
| Int2.SubAddRoundTrip | MathSIMD.h:377-378 | `(p - q) + q` is defined and equals p |
| Int2.SubIsAddNeg | MathSIMD.h:376-378 | `p - q == p + (-q)` |
| Int2.Div | MathSIMD.h:380 | each lane is the quotient truncated toward zero; requires non-zero divisors and no INT_MIN / -1 |
| Int2.DivTruncatesTowardZero | MathSIMD.h:380 | (-7, 7) / (2, -2) is (-3, -3): negative quotients round toward zero, not down |
| Int2.Mul | MathSIMD.h:379 | requires the products to fit; dividing the product by a q with no zero lane gives back p |
| Int2.AddScalar | MathSIMD.h:392 | `p + s` is `p` plus the point with s in every lane |
| Int2.SubScalar | MathSIMD.h:393 | `p - s` is `p` minus the point with s in every lane |
| Int2.MulScalar | MathSIMD.h:394 | `p * s` is `p` times the point with s in every lane |
| Int2.DivScalar | MathSIMD.h:395 | `p / s` is `p` divided by the point with s in every lane |
| Int2.Absolute | MathSIMD.h:436 | every lane is non-negative and equal to the old lane or its negation |
| Int2.AbsoluteFixesNonNegative | MathSIMD.h:436 | the absolute value changes p iff some lane is negative |
| Int2.FromUint2 | MathSIMD.h:424 | `Set(const UIntPoint2&)` keeps each lane modulo 2^32 |
| Int2.ToUint2 | MathSIMD.h:1064 | `UIntPoint2(const IntPoint2&)` keeps each lane modulo 2^32 |
| Int2.ConversionsRoundTrip | MathSIMD.h:1064 | the conversions between IntPoint2 and UIntPoint2 undo each other |
| Int2.Min | MathSIMD.h:1153 | each lane is taken from one of the inputs, and the result is <= both inputs |
| Int2.Max | MathSIMD.h:1154 | each lane is taken from one of the inputs, and the result is >= both inputs |
| Int2.MinMaxAreBounds | MathSIMD.h:1153-1154 | Min is the greatest lower bound and Max the least upper bound lane-wise |
| Int2.Clamp | MathSIMD.h:1155 | Clamp as written is never below `max` |
| Int2.ClampReturnsUpperBound | MathSIMD.h:1155 | whenever min <= max, Clamp as written returns exactly max |
| Int2.ClampMovesInRangePoint | MathSIMD.h:1155 | Clamp((-5,5), (-10,0), (10,10)) is (10,10) |
| Int2.ClampToRange | MathSIMD.h:1155 | corrected clamp: result in [min, max], and an in-range point is unchanged; with min <= max each lane is min where c is below it, max where c is above it, and c otherwise |
| Int3.Eq | MathSIMD.h:493 | lane-wise `==` holds iff the two points are equal |
| Int3.Ne | MathSIMD.h:494 | `!=` is exactly the negation of `==` |
| Int3.Less | MathSIMD.h:495 | `<` implies `<=` and inequality |
| Int3.Greater | MathSIMD.h:496 | `p > q` iff `q < p` |
| Int3.GreaterEq | MathSIMD.h:498 | `p >= q` iff `q <= p` |
| Int3.LessEq | MathSIMD.h:497 | where `q - p` fits, `p <= q` holds iff `q - p` has no negative lane |
| Int3.LessEqPartialOrder | MathSIMD.h:497 | lane-wise `<=` is a partial order |
| Int3.SomePointsIncomparable | MathSIMD.h:495-498 | some pairs satisfy neither `<` nor `>=` |
| Int3.NonZero | MathSIMD.h:483 | `operator bool` holds iff the point is not zero |
| Int3.Empty | MathSIMD.h:483-484 | `operator!` is exactly the negation of `operator bool` |
| Int3.IsZero | MathSIMD.h:550 | IsZero holds iff all three lanes are 0 |
| Int3.EmptyIffIsZero | MathSIMD.h:550 | `!p` holds iff `p.IsZero()` |
| Int3.Neg | MathSIMD.h:500 | negation needs no INT_MIN lane and yields a point that can be negated again; it is zero iff p is |
| Int3.NegInvolutive | MathSIMD.h:500 | `-(-p) == p` when no lane is INT_MIN |
| Int3.Sub | MathSIMD.h:502 | requires the differences to fit in `int`; the result is zero iff p == q, and subtracting zero leaves p |
| Int3.Add | MathSIMD.h:501 | requires the sums to fit; then `(p + q) - q` is defined and equals p |
| Int3.SubAddRoundTrip | MathSIMD.h:501-502 | `(p - q) + q` is defined and equals p |
| Int3.SubIsAddNeg | MathSIMD.h:500-502 | `p - q == p + (-q)` |
| Int3.Div | MathSIMD.h:504 | each lane is the quotient truncated toward zero; requires non-zero divisors and no INT_MIN / -1 |
| Int3.Mul | MathSIMD.h:503 | requires the products to fit; dividing the product by a q with no zero lane gives back p |
| Int3.AddScalar | MathSIMD.h:516 | `p + s` is `p` plus the point with s in every lane |
| Int3.SubScalar | MathSIMD.h:517 | `p - s` is `p` minus the point with s in every lane |
| Int3.MulScalar | MathSIMD.h:518 | `p * s` is `p` times the point with s in every lane |
| Int3.DivScalar | MathSIMD.h:519 | `p / s` is `p` divided by the point with s in every lane |
| Int3.Absolute | MathSIMD.h:559 | every lane is non-negative and equal to the old lane or its negation |
| Int3.AbsoluteFixesNonNegative | MathSIMD.h:559 | the absolute value changes p iff some lane is negative |
| Int3.Min | MathSIMD.h:1157 | each lane is taken from one of the inputs, and the result is <= both inputs |
| Int3.Max | MathSIMD.h:1158 | each lane is taken from one of the inputs, and the result is >= both inputs |
| Int3.MinMaxAreBounds | MathSIMD.h:1157-1158 | Min is the greatest lower bound and Max the least upper bound lane-wise |
| Int3.Clamp | MathSIMD.h:1159 | Clamp as written is never below `max` |
| Int3.ClampReturnsUpperBound | MathSIMD.h:1159 | whenever min <= max, Clamp as written returns exactly max |
| Int3.ClampMovesInRangePoint | MathSIMD.h:1159 | Clamp((-5,5,0), (-10,0,-1), (10,10,1)) is (10,10,1) |
| Int3.ClampToRange | MathSIMD.h:1159 | corrected clamp: result in [min, max], and an in-range point is unchanged; with min <= max each lane is min where c is below it, max where c is above it, and c otherwise |
| FloatBits.Sign | MathSIMD.h:191 | the sign field is one bit |
| FloatBits.Exponent | MathSIMD.h:191 | the biased exponent field is 8 bits |
| FloatBits.TrailingSignificand | MathSIMD.h:191 | the trailing significand field is 23 bits |
| FloatBits.FieldsRoundTrip | MathSIMD.h:191 | a pattern is the encoding of its three fields, and the fields of an encoding are the ones it was built from |
| FloatBits.IsNaN | MathSIMD.h:191 | `ISNAN` holds iff the exponent field is all ones and the trailing significand is non-zero |
| FloatBits.IsNaNIgnoresSign | MathSIMD.h:191 | flipping bit 31 never changes `ISNAN` |
| FloatBits.InfinitiesAreNotNaN | MathSIMD.h:191 | `ISNAN` is false for 0x7F800000 and 0xFF800000 |
| FloatBits.NaNPatterns | MathSIMD.h:191 | `ISNAN` is true for quiet and signalling NaNs of either sign |
| FloatBits.FiniteIsNotNaN | MathSIMD.h:191 | `ISNAN` is false whenever the exponent field is not all ones |
| Points.UIntPoint2.constructor | MathSIMD.h:217 | the default constructor gives IsZero |
| Points.UIntPoint2.Broadcast | MathSIMD.h:218 | `UIntPoint2(xy)` puts xy in both lanes |
| Points.UIntPoint2.BroadcastSigned | MathSIMD.h:219 | `UIntPoint2(long xy)` puts the unsigned conversion of xy in both lanes |
| Points.UIntPoint2.FromLanes | MathSIMD.h:220-221 | `UIntPoint2(x, y)` has lanes x and y |
| Points.UIntPoint2.FromSignedLanes | MathSIMD.h:222 | `UIntPoint2(long x, long y)` has the unsigned conversions of x and y |
| Points.UIntPoint2.FromInt2 | MathSIMD.h:1064 | converting an IntPoint2 casts each lane to `unsigned int` |
| Points.UIntPoint2.SetZero | MathSIMD.h:286 | afterwards IsZero holds |
| Points.UIntPoint2.SetX | MathSIMD.h:287 | only lane x changes, to the given value |
| Points.UIntPoint2.SetY | MathSIMD.h:288 | only lane y changes, to the given value |
| Points.UIntPoint2.Set | MathSIMD.h:289 | one value broadcast to both lanes |
| Points.UIntPoint2.SetSigned | MathSIMD.h:290 | the unsigned conversion of a `long` broadcast to both lanes |
| Points.UIntPoint2.SetLanes | MathSIMD.h:292-293 | the lanes become x and y |
| Points.UIntPoint2.SetSignedLanes | MathSIMD.h:294 | the lanes become the unsigned conversions of x and y |
| Points.UIntPoint2.Assign | MathSIMD.h:296 | the lanes become those of the argument |
| Points.UIntPoint2.AddAssign | MathSIMD.h:265 | `p += q` leaves the value of `p + q`, even when q is p |
| Points.UIntPoint2.SubAssign | MathSIMD.h:266 | `p -= q` leaves the value of `p - q` |
| Points.UIntPoint2.MulAssign | MathSIMD.h:267 | `p *= q` leaves the value of `p * q` |
| Points.UIntPoint2.DivAssign | MathSIMD.h:268 | `p /= q` leaves the value of `p / q`; both divisor lanes non-zero |
| Points.UIntPoint2.AddAssignScalar | MathSIMD.h:260 | `p += s` leaves the value of `p + s` |
| Points.UIntPoint2.SubAssignScalar | MathSIMD.h:261 | `p -= s` leaves the value of `p - s` |
| Points.UIntPoint2.MulAssignScalar | MathSIMD.h:262 | `p *= s` leaves the value of `p * s` |
| Points.UIntPoint2.DivAssignScalar | MathSIMD.h:263 | `p /= s` leaves the value of `p / s`; s non-zero |
| Points.UIntPoint2.Min | MathSIMD.h:308 | in-place Min leaves the lanes the free Min returns |
| Points.UIntPoint2.Max | MathSIMD.h:309 | in-place Max leaves the lanes the free Max returns |
| Points.IntPoint2.constructor | MathSIMD.h:337 | the default constructor gives IsZero |
| Points.IntPoint2.Broadcast | MathSIMD.h:338 | `IntPoint2(long xy)` puts xy in both lanes |
| Points.IntPoint2.FromLanes | MathSIMD.h:339-340 | `IntPoint2(x, y)` has lanes x and y |
| Points.IntPoint2.FromUnsignedLanes | MathSIMD.h:341 | `IntPoint2(unsigned x, unsigned y)` has the signed conversions of x and y |
| Points.IntPoint2.FromUInt | MathSIMD.h:345 | converting a UIntPoint2 casts each lane to `int` |
| Points.IntPoint2.SetZero | MathSIMD.h:413 | afterwards IsZero holds |
| Points.IntPoint2.SetX | MathSIMD.h:414 | only lane x changes, to the given value |
| Points.IntPoint2.SetY | MathSIMD.h:415 | only lane y changes, to the given value |
| Points.IntPoint2.Set | MathSIMD.h:416 | one value broadcast to both lanes |
| Points.IntPoint2.SetLanes | MathSIMD.h:418-419 | the lanes become x and y |
| Points.IntPoint2.SetUnsignedLanes | MathSIMD.h:420 | the lanes become the signed conversions of x and y |
| Points.IntPoint2.Assign | MathSIMD.h:423 | the lanes become those of the argument |
| Points.IntPoint2.SetFromUInt | MathSIMD.h:424 | the lanes become the signed conversions of the UIntPoint2's lanes |
| Points.IntPoint2.AddAssign | MathSIMD.h:387 | `p += q` leaves the value of `p + q`, when it fits |
| Points.IntPoint2.SubAssign | MathSIMD.h:388 | `p -= q` leaves the value of `p - q`, when it fits |
| Points.IntPoint2.MulAssign | MathSIMD.h:389 | `p *= q` leaves the value of `p * q`, when it fits |
| Points.IntPoint2.DivAssign | MathSIMD.h:390 | `p /= q` leaves the truncated quotient, when it is defined |
| Points.IntPoint2.AddAssignScalar | MathSIMD.h:382 | `p += s` leaves the value of `p + s` |
| Points.IntPoint2.SubAssignScalar | MathSIMD.h:383 | `p -= s` leaves the value of `p - s` |
| Points.IntPoint2.MulAssignScalar | MathSIMD.h:384 | `p *= s` leaves the value of `p * s` |
| Points.IntPoint2.DivAssignScalar | MathSIMD.h:385 | `p /= s` leaves the value of `p / s` |
| Points.IntPoint2.Min | MathSIMD.h:434 | in-place Min leaves the lanes the free Min returns |
| Points.IntPoint2.Max | MathSIMD.h:435 | in-place Max leaves the lanes the free Max returns |
| Points.IntPoint2.MakeAbsolute | MathSIMD.h:436 | every lane becomes its absolute value; no lane may be INT_MIN |
| Points.IntPoint3.constructor | MathSIMD.h:464 | the default constructor gives IsZero |
| Points.IntPoint3.Broadcast | MathSIMD.h:465 | `IntPoint3(long xyz)` puts xyz in every lane |
| Points.IntPoint3.FromLanes | MathSIMD.h:466-467 | `IntPoint3(x, y, z)` has lanes x, y and z |
| Points.IntPoint3.FromUnsignedLanes | MathSIMD.h:468 | `IntPoint3(unsigned x, y, z)` has the signed conversions of x, y and z |
| Points.IntPoint3.SetZero | MathSIMD.h:536 | afterwards IsZero holds |
| Points.IntPoint3.SetX | MathSIMD.h:537 | only lane x changes, to the given value |
| Points.IntPoint3.SetY | MathSIMD.h:538 | only lane y changes, to the given value |
| Points.IntPoint3.SetZ | MathSIMD.h:539 | only lane z changes, to the given value |
| Points.IntPoint3.Set | MathSIMD.h:540 | one value broadcast to every lane |
| Points.IntPoint3.SetLanes | MathSIMD.h:542-543 | the lanes become x, y and z |
| Points.IntPoint3.SetUnsignedLanes | MathSIMD.h:544 | the lanes become the signed conversions of x, y and z |
| Points.IntPoint3.Assign | MathSIMD.h:547 | the lanes become those of the argument |
| Points.IntPoint3.AddAssign | MathSIMD.h:511 | `p += q` leaves the value of `p + q`, when it fits |
| Points.IntPoint3.SubAssign | MathSIMD.h:512 | `p -= q` leaves the value of `p - q`, when it fits |
| Points.IntPoint3.MulAssign | MathSIMD.h:513 | `p *= q` leaves the value of `p * q`, when it fits |
| Points.IntPoint3.DivAssign | MathSIMD.h:514 | `p /= q` leaves the truncated quotient, when it is defined |
| Points.IntPoint3.AddAssignScalar | MathSIMD.h:506 | `p += s` leaves the value of `p + s` |
| Points.IntPoint3.SubAssignScalar | MathSIMD.h:507 | `p -= s` leaves the value of `p - s` |
| Points.IntPoint3.MulAssignScalar | MathSIMD.h:508 | `p *= s` leaves the value of `p * s` |
| Points.IntPoint3.DivAssignScalar | MathSIMD.h:509 | `p /= s` leaves the value of `p / s` |
| Points.IntPoint3.Max | MathSIMD.h:557 | in-place Max leaves the lanes the free Max returns |
| Points.IntPoint3.Min | MathSIMD.h:558 | in-place Min leaves the lanes the free Min returns |
| Points.IntPoint3.MakeAbsolute | MathSIMD.h:559 | every lane becomes its absolute value; no lane may be INT_MIN |

## Left out

- `FloatPoint2`, `FloatPoint3`, `FloatPoint4` and `Quaternion`. They are floating-point numerics, and every body calls DirectXMath, which is not part of this model.
- The float paths of the integer types. These are the float scalar operators, the float compound assignments, `Set(float ...)` and the float constructors. They depend on float rounding and truncation.
- `UIntPoint2(const FloatPoint2&)` and `IntPoint2(const FloatPoint2&)`. They convert through float vectors.
- `GetMagnitude` and `Magnitude`. They use floating-point `sqrt`.
- The conversions to and from `XMVECTOR`, `XMINT2`, `XMUINT2`, `XMFLOAT2`, `XMINT3`, `XMUINT3`, `XMFLOAT3` and `POINT`. They involve foreign types.
- `GetPtr` and `operator[]`. They index the object through `reinterpret_cast`. The lane arrays stand in for them.
- `GetX`, `GetY` and `GetZ` have no members of their own. They are the fields of `Value()`.
- The aligned `operator new` and `operator delete`, and the virtual destructors. They are allocation plumbing.
- `Random` and its unsynchronised global seed. Also the scalar float `Clamp`, which depends on NaN ordering.
- `MAKE_SIMD_FUNCS`, `Dot`, `Cross` and `Normalize`. They wrap DirectXMath.
- The stream and JSON declarations, which have no bodies, and `SystemInfo`, which is console and OS I/O.
- `long` wider than 32 bits (LP64 platforms). On LP64, the `long` overloads compute in 64 bits and narrow when they store. Only the 32-bit `long` of the targeted Windows platform is modelled.
- The compound assignments return `*this` in C++, so calls can be chained. The methods here return nothing.
- Each object is assumed to own its lane array. The constructors return fresh arrays.

## Findings

| source | as written | input that shows it | evidently intended | confidence | as-written member | corrected member |
|---|---|---|---|---|---|---|
| MathSIMD.h:1151 | `Clamp(c, min, max)` returns `Max(Min(c, min), max)`, which equals `max` whenever min <= max | c = (5,5), min = (0,0), max = (10,10) gives (10,10) instead of (5,5) | `Min(Max(c, min), max)`: every lane limited to [min, max] | high, not executed | Uint2.ClampReturnsUpperBound | Uint2.ClampToRange |
| MathSIMD.h:1155 | the same expression for `IntPoint2` | c = (-5,5), min = (-10,0), max = (10,10) gives (10,10) | `Min(Max(c, min), max)` | high, not executed | Int2.ClampReturnsUpperBound | Int2.ClampToRange |
| MathSIMD.h:1159 | the same expression for `IntPoint3` | c = (-5,5,0), min = (-10,0,-1), max = (10,10,1) gives (10,10,1) | `Min(Max(c, min), max)` | high, not executed | Int3.ClampReturnsUpperBound | Int3.ClampToRange |

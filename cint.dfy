/** The C++ integer semantics that the integer point types rely on.
    The header targets Windows (LLP64), so `int`, `long`, `unsigned int` and
    `unsigned long` are all 32 bits wide. Unsigned arithmetic wraps modulo 2^32;
    signed overflow is undefined, so callers of the signed operators must keep
    every result inside `int32`. */
module CInt {

  const TWO_32: int := 0x1_0000_0000
  const INT_MIN: int := -0x8000_0000
  const INT_MAX: int := 0x7FFF_FFFF

  /** C++ `unsigned int` (and `unsigned long` on LLP64). */
  newtype uint32 = n: int | 0 <= n < 0x1_0000_0000

  /** C++ `int` (and `long` on LLP64). */
  newtype int32 = n: int | -0x8000_0000 <= n < 0x8000_0000

  /** The mathematical value n can be stored in an `int` without overflow. */
  predicate Fits(n: int) {
    INT_MIN <= n <= INT_MAX
  }

  /** a and b denote the same 32-bit pattern: they agree modulo 2^32. */
  predicate Congruent(a: int, b: int) {
    (a - b) % TWO_32 == 0
  }

  function Abs(n: int): (r: nat)
    ensures r == n || r == -n
  {
    if n < 0 then -n else n
  }

  /** Conversion of an integer to `unsigned int`: the one value in [0, 2^32)
      congruent to n modulo 2^32. Every unsigned operator result and every
      signed-to-unsigned cast goes through it. */
  function Wrap(n: int): (r: uint32)
    ensures Congruent(r as int, n)
    ensures 0 <= n < TWO_32 ==> r as int == n
  {
    (n % TWO_32) as uint32
  }

  /** Integers that agree modulo 2^32 wrap to the same `unsigned int`. */
  lemma WrapCongruent(a: int, b: int)
    requires Congruent(a, b)
    ensures Wrap(a) == Wrap(b)
  {
    var k := (a - b) / TWO_32;
    assert a == b + k * TWO_32;
    assert (b + k * TWO_32) % TWO_32 == b % TWO_32;
  }

  /** `static_cast<int>` of an `unsigned int`: the two's-complement reading of
      the same 32 bits (modular by definition since C++20, and what MSVC does). */
  function ToSigned(u: uint32): (i: int32)
    ensures Congruent(i as int, u as int)
    ensures u as int <= INT_MAX ==> i as int == u as int
  {
    if u as int <= INT_MAX then u as int as int32 else (u as int - TWO_32) as int32
  }

  /** `static_cast<unsigned int>` of an `int`. */
  function ToUnsigned(i: int32): (u: uint32)
    ensures Congruent(u as int, i as int)
    ensures i >= 0 ==> u as int == i as int
  {
    Wrap(i as int)
  }

  lemma UnsignedSignedRoundTrip(u: uint32)
    ensures ToUnsigned(ToSigned(u)) == u
  {
  }

  lemma SignedUnsignedRoundTrip(i: int32)
    ensures ToSigned(ToUnsigned(i)) == i
  {
  }

  /** C++ `a / b` on `int` is defined: the divisor is non-zero and the one
      overflowing quotient, INT_MIN / -1, is excluded. */
  predicate QuotDefined(a: int32, b: int32) {
    b != 0 && !(a as int == INT_MIN && b == -1)
  }

  /** Euclidean division of naturals brackets n between two multiples of d. */
  lemma QuotientBrackets(n: nat, d: nat)
    requires d >= 1
    ensures (n / d) * d <= n < (n / d + 1) * d
  {
    var q, m := n / d, n % d;
    assert n == d * q + m && 0 <= m < d;
    assert (q + 1) * d == q * d + d;
  }

  lemma MulMonotone(q: nat, d: nat, e: nat)
    requires d <= e
    ensures q * d <= q * e
  {
    assert q * e == q * d + q * (e - d);
  }

  /** n / d never exceeds n, and drops at least by half once d >= 2. */
  lemma QuotientShrinks(n: nat, d: nat)
    requires d >= 1
    ensures n / d <= n
    ensures d >= 2 ==> 2 * (n / d) <= n
  {
    var q: nat := n / d;
    QuotientBrackets(n, d);
    MulMonotone(q, 1, d);
    if d >= 2 {
      MulMonotone(q, 2, d);
    }
  }

  /** Division of naturals, with the facts the truncated quotient needs. */
  function NatQuot(n: nat, d: nat): (q: nat)
    requires d >= 1
    ensures q * d <= n < (q + 1) * d
    ensures q <= n
    ensures d >= 2 ==> 2 * q <= n
  {
    var q := n / d;
    QuotientBrackets(n, d);
    QuotientShrinks(n, d);
    assert q * d <= n;
    q
  }

  /** At most one natural q brackets n between q * d and (q + 1) * d. */
  lemma BracketUnique(q1: nat, q2: nat, n: nat, d: nat)
    requires d >= 1
    requires q1 * d <= n < (q1 + 1) * d
    requires q2 * d <= n < (q2 + 1) * d
    ensures q1 == q2
  {
  }

  /** Unsigned division as counting how often d can be taken away from n:
      the reference definition the quotient is checked against. */
  function SubtractionQuot(n: nat, d: nat): (q: nat)
    requires d >= 1
    ensures q <= n
    decreases n
  {
    if n < d then 0 else 1 + SubtractionQuot(n - d, d)
  }

  /** Taking d away from n lowers the quotient by exactly one. */
  lemma NatQuotStep(n: nat, d: nat)
    requires d >= 1 && n >= d
    ensures NatQuot(n - d, d) + 1 == NatQuot(n, d)
  {
    var q := NatQuot(n - d, d);
    assert (q + 1) * d == q * d + d;
    assert (q + 2) * d == (q + 1) * d + d;
    BracketUnique(q + 1, NatQuot(n, d), n, d);
  }

  /** The quotient of unsigned division is the number of times d can be
      subtracted from n. */
  lemma {:induction false} NatQuotIsRepeatedSubtraction(n: nat, d: nat)
    requires d >= 1
    ensures NatQuot(n, d) == SubtractionQuot(n, d)
    decreases n
  {
    if n >= d {
      NatQuotIsRepeatedSubtraction(n - d, d);
      NatQuotStep(n, d);
    }
  }

  /** q is a / b truncated toward zero: its magnitude is the floor of
      |a| / |b| and, unless it is zero, its sign is the sign of a / b. */
  predicate IsTruncQuot(q: int, a: int, b: int) {
    Abs(q) * Abs(b) <= Abs(a) < (Abs(q) + 1) * Abs(b) &&
    (q != 0 ==> ((q < 0) <==> ((a < 0) != (b < 0))))
  }

  /** C++ `a / b` on `int`: the quotient truncated toward zero (Dafny's own `/`
      is Euclidean and differs for negative operands). */
  function Quot(a: int32, b: int32): (q: int32)
    requires QuotDefined(a, b)
    ensures IsTruncQuot(q as int, a as int, b as int)
  {
    var m := NatQuot(Abs(a as int), Abs(b as int));
    assert m <= -INT_MIN;
    assert (a < 0) == (b < 0) ==> m <= INT_MAX;
    if (a < 0) == (b < 0) then m as int32 else (-(m as int)) as int32
  }

  /** The truncated quotient is determined by its specification. */
  lemma TruncQuotUnique(q1: int, q2: int, a: int, b: int)
    requires b != 0
    requires IsTruncQuot(q1, a, b) && IsTruncQuot(q2, a, b)
    ensures q1 == q2
  {
    BracketUnique(Abs(q1), Abs(q2), Abs(a), Abs(b));
  }

  lemma AbsMul(a: int, b: int)
    ensures Abs(a * b) == Abs(a) * Abs(b)
    ensures a != 0 && b != 0 ==> ((a * b < 0) <==> ((a < 0) != (b < 0)))
  {
    if a < 0 && b < 0 {
      assert a * b == (-a) * (-b);
    } else if a < 0 {
      assert a * b == -((-a) * b);
    } else if b < 0 {
      assert a * b == -(a * (-b));
    }
    if a != 0 && b != 0 {
      MulMonotone(Abs(a), 1, Abs(b));
    }
  }

  /** Dividing a product by one of its non-zero factors gives back the other
      factor exactly, whatever the signs. */
  lemma QuotOfProduct(a: int32, b: int32)
    requires b != 0 && Fits(a as int * b as int)
    ensures QuotDefined((a as int * b as int) as int32, b)
    ensures Quot((a as int * b as int) as int32, b) == a
  {
    var p := a as int * b as int;
    AbsMul(a as int, b as int);
    if b == -1 {
      assert p == -(a as int);
    }
    var d := Abs(b as int);
    assert Abs(a as int) * d <= Abs(p) < (Abs(a as int) + 1) * d by {
      assert (Abs(a as int) + 1) * d == Abs(a as int) * d + d;
    }
    assert IsTruncQuot(a as int, p, b as int);
    TruncQuotUnique(Quot(p as int32, b) as int, a as int, p, b as int);
  }
}

/** The value algebra of `IntPoint3` (typedef `int3`): three `int` lanes,
    x = i[0], y = i[1] and z = i[2]. Every operator works lane by lane.
    Signed overflow is undefined behaviour in C++, so each operator requires
    that every lane of its exact result fits in an `int`. */
module Int3 {
  import opened CInt

  datatype Lanes = Lanes(x: int32, y: int32, z: int32)

  const ZERO := Lanes(0, 0, 0)

  /** The scalar s in every lane. */
  function Splat(s: int32): (r: Lanes) {
    Lanes(s, s, s)
  }

  // Comparators: lane-wise, and a comparison holds only when it holds in every lane.

  /** `p <= q` holds exactly when `q - p` has no negative lane (wherever
      `q - p` can be computed at all). */
  predicate LessEq(p: Lanes, q: Lanes)
    ensures SubFits(q, p) ==>
      (LessEq(p, q) <==> Sub(q, p).x >= 0 && Sub(q, p).y >= 0 && Sub(q, p).z >= 0)
  {
    p.x <= q.x && p.y <= q.y && p.z <= q.z
  }

  predicate Less(p: Lanes, q: Lanes)
    ensures Less(p, q) ==> LessEq(p, q) && p != q
  {
    p.x < q.x && p.y < q.y && p.z < q.z
  }

  predicate Eq(p: Lanes, q: Lanes)
    ensures Eq(p, q) <==> p == q
  {
    p.x == q.x && p.y == q.y && p.z == q.z
  }

  predicate Ne(p: Lanes, q: Lanes)
    ensures Ne(p, q) <==> !Eq(p, q)
  {
    p.x != q.x || p.y != q.y || p.z != q.z
  }

  predicate Greater(p: Lanes, q: Lanes)
    ensures Greater(p, q) <==> Less(q, p)
  {
    p.x > q.x && p.y > q.y && p.z > q.z
  }

  predicate GreaterEq(p: Lanes, q: Lanes)
    ensures GreaterEq(p, q) <==> LessEq(q, p)
  {
    p.x >= q.x && p.y >= q.y && p.z >= q.z
  }

  /** Lane-wise `<=` is a partial order on points. */
  lemma LessEqPartialOrder(p: Lanes, q: Lanes, r: Lanes)
    ensures LessEq(p, p)
    ensures LessEq(p, q) && LessEq(q, p) ==> p == q
    ensures LessEq(p, q) && LessEq(q, r) ==> LessEq(p, r)
  {
  }

  /** The order is not total: `<` and `>=` are not complements of each other. */
  lemma SomePointsIncomparable()
    ensures exists p: Lanes, q: Lanes :: !Less(p, q) && !GreaterEq(p, q)
  {
    var p, q := Lanes(0, 1, 0), Lanes(1, 0, 0);
    assert !Less(p, q) && !GreaterEq(p, q);
  }

  // `operator bool`, `operator!` and IsZero.

  /** `explicit operator bool`: some lane is non-zero. */
  predicate NonZero(p: Lanes)
    ensures NonZero(p) <==> p != ZERO
  {
    p.x != 0 || p.y != 0 || p.z != 0
  }

  /** `operator!`: the point is empty. */
  predicate Empty(p: Lanes)
    ensures Empty(p) <==> !NonZero(p)
  {
    p.x == 0 && p.y == 0 && p.z == 0
  }

  predicate IsZero(p: Lanes)
    ensures IsZero(p) <==> p == ZERO
  {
    p.x == 0 && p.y == 0 && p.z == 0
  }

  lemma EmptyIffIsZero(p: Lanes)
    ensures Empty(p) <==> IsZero(p)
  {
  }

  // When the operators are defined.

  /** No lane is INT_MIN, whose negation and absolute value overflow. */
  predicate NoIntMin(p: Lanes) {
    p.x as int != INT_MIN && p.y as int != INT_MIN && p.z as int != INT_MIN
  }

  predicate AddFits(p: Lanes, q: Lanes) {
    Fits(p.x as int + q.x as int) && Fits(p.y as int + q.y as int) && Fits(p.z as int + q.z as int)
  }

  predicate SubFits(p: Lanes, q: Lanes) {
    Fits(p.x as int - q.x as int) && Fits(p.y as int - q.y as int) && Fits(p.z as int - q.z as int)
  }

  predicate MulFits(p: Lanes, q: Lanes) {
    Fits(p.x as int * q.x as int) && Fits(p.y as int * q.y as int) && Fits(p.z as int * q.z as int)
  }

  predicate DivDefined(p: Lanes, q: Lanes) {
    QuotDefined(p.x, q.x) && QuotDefined(p.y, q.y) && QuotDefined(p.z, q.z)
  }

  // Arithmetic operators.

  /** Unary minus, `-1 * i[k]` in every lane. */
  function Neg(p: Lanes): (r: Lanes)
    requires NoIntMin(p)
    ensures NoIntMin(r)
    ensures IsZero(r) <==> IsZero(p)
  {
    Lanes(-1 * p.x, -1 * p.y, -1 * p.z)
  }

  lemma NegInvolutive(p: Lanes)
    requires NoIntMin(p)
    ensures Neg(Neg(p)) == p
  {
  }

  /** Lane-wise difference. It is zero exactly for equal points, and
      subtracting zero changes nothing. */
  function Sub(p: Lanes, q: Lanes): (r: Lanes)
    requires SubFits(p, q)
    ensures IsZero(r) <==> p == q
    ensures IsZero(q) ==> r == p
  {
    Lanes(p.x - q.x, p.y - q.y, p.z - q.z)
  }

  /** Lane-wise sum; subtracting q again restores p. */
  function Add(p: Lanes, q: Lanes): (r: Lanes)
    requires AddFits(p, q)
    ensures SubFits(r, q) && Sub(r, q) == p
  {
    Lanes(p.x + q.x, p.y + q.y, p.z + q.z)
  }

  lemma SubAddRoundTrip(p: Lanes, q: Lanes)
    requires SubFits(p, q)
    ensures AddFits(Sub(p, q), q) && Add(Sub(p, q), q) == p
  {
  }

  /** Subtraction is addition of the negation. */
  lemma SubIsAddNeg(p: Lanes, q: Lanes)
    requires NoIntMin(q) && SubFits(p, q)
    ensures AddFits(p, Neg(q)) && Sub(p, q) == Add(p, Neg(q))
  {
  }

  /** Division truncating toward zero in each lane, as C++ `int` division. */
  function Div(p: Lanes, q: Lanes): (r: Lanes)
    requires DivDefined(p, q)
    ensures IsTruncQuot(r.x as int, p.x as int, q.x as int)
    ensures IsTruncQuot(r.y as int, p.y as int, q.y as int)
    ensures IsTruncQuot(r.z as int, p.z as int, q.z as int)
  {
    Lanes(Quot(p.x, q.x), Quot(p.y, q.y), Quot(p.z, q.z))
  }

  /** Lane-wise product; where no lane of q is zero, dividing by q again
      restores p exactly. */
  function Mul(p: Lanes, q: Lanes): (r: Lanes)
    requires MulFits(p, q)
    ensures q.x != 0 && q.y != 0 && q.z != 0 ==> DivDefined(r, q) && Div(r, q) == p
  {
    var r := Lanes(
      (p.x as int * q.x as int) as int32,
      (p.y as int * q.y as int) as int32,
      (p.z as int * q.z as int) as int32);
    if q.x != 0 && q.y != 0 && q.z != 0 then
      QuotOfProduct(p.x, q.x);
      QuotOfProduct(p.y, q.y);
      QuotOfProduct(p.z, q.z);
      r
    else
      r
  }

  // Arithmetic operators against a scalar, which acts on every lane.

  function AddScalar(p: Lanes, s: int32): (r: Lanes)
    requires AddFits(p, Splat(s))
    ensures r == Add(p, Splat(s))
  {
    Lanes(p.x + s, p.y + s, p.z + s)
  }

  function SubScalar(p: Lanes, s: int32): (r: Lanes)
    requires SubFits(p, Splat(s))
    ensures r == Sub(p, Splat(s))
  {
    Lanes(p.x - s, p.y - s, p.z - s)
  }

  function MulScalar(p: Lanes, s: int32): (r: Lanes)
    requires MulFits(p, Splat(s))
    ensures r == Mul(p, Splat(s))
  {
    Lanes(p.x * s, p.y * s, p.z * s)
  }

  function DivScalar(p: Lanes, s: int32): (r: Lanes)
    requires DivDefined(p, Splat(s))
    ensures r == Div(p, Splat(s))
  {
    Lanes(Quot(p.x, s), Quot(p.y, s), Quot(p.z, s))
  }

  // Absolute value, the specification of MakeAbsolute.

  /** `std::abs` in every lane: non-negative, and equal to the lane or its
      negation. */
  function Absolute(p: Lanes): (r: Lanes)
    requires NoIntMin(p)
    ensures LessEq(ZERO, r)
    ensures r.x == p.x || r.x == -p.x
    ensures r.y == p.y || r.y == -p.y
    ensures r.z == p.z || r.z == -p.z
  {
    Lanes(if p.x < 0 then -p.x else p.x, if p.y < 0 then -p.y else p.y, if p.z < 0 then -p.z else p.z)
  }

  /** The absolute value leaves exactly the non-negative points unchanged. */
  lemma AbsoluteFixesNonNegative(p: Lanes)
    requires NoIntMin(p)
    ensures Absolute(p) == p <==> LessEq(ZERO, p)
  {
  }

  // The free functions Min, Max and Clamp.

  /** Each lane is the smaller of the two lanes. */
  function Min(p: Lanes, q: Lanes): (r: Lanes)
    ensures LessEq(r, p) && LessEq(r, q)
    ensures r.x == p.x || r.x == q.x
    ensures r.y == p.y || r.y == q.y
    ensures r.z == p.z || r.z == q.z
  {
    Lanes(if p.x < q.x then p.x else q.x, if p.y < q.y then p.y else q.y, if p.z < q.z then p.z else q.z)
  }

  /** Each lane is the larger of the two lanes. */
  function Max(p: Lanes, q: Lanes): (r: Lanes)
    ensures GreaterEq(r, p) && GreaterEq(r, q)
    ensures r.x == p.x || r.x == q.x
    ensures r.y == p.y || r.y == q.y
    ensures r.z == p.z || r.z == q.z
  {
    Lanes(if p.x > q.x then p.x else q.x, if p.y > q.y then p.y else q.y, if p.z > q.z then p.z else q.z)
  }

  /** Min is the greatest lower bound and Max the least upper bound of the
      lane-wise order. */
  lemma MinMaxAreBounds(p: Lanes, q: Lanes, b: Lanes)
    ensures LessEq(b, Min(p, q)) <==> LessEq(b, p) && LessEq(b, q)
    ensures LessEq(Max(p, q), b) <==> LessEq(p, b) && LessEq(q, b)
  {
  }

  /** Clamp as written: `Max(Min(c, min), max)`. The result is never below
      `max` in any lane. */
  function Clamp(c: Lanes, min: Lanes, max: Lanes): (r: Lanes)
    ensures GreaterEq(r, max)
  {
    Max(Min(c, min), max)
  }

  /** As written, Clamp ignores c altogether whenever min <= max. */
  lemma ClampReturnsUpperBound(c: Lanes, min: Lanes, max: Lanes)
    requires LessEq(min, max)
    ensures Clamp(c, min, max) == max
  {
  }

  /** A point already inside the range is moved to its upper corner. */
  lemma ClampMovesInRangePoint()
    ensures Clamp(Lanes(-5, 5, 0), Lanes(-10, 0, -1), Lanes(10, 10, 1)) == Lanes(10, 10, 1)
  {
  }

  /** The clamp the callers evidently expect: every lane limited to
      [min, max], and a point inside the range left where it is. */
  function ClampToRange(c: Lanes, min: Lanes, max: Lanes): (r: Lanes)
    ensures LessEq(min, max) ==> LessEq(min, r) && LessEq(r, max)
    ensures LessEq(min, c) && LessEq(c, max) ==> r == c
    ensures LessEq(min, max) ==>
      r.x == (if c.x < min.x then min.x else if c.x > max.x then max.x else c.x) &&
      r.y == (if c.y < min.y then min.y else if c.y > max.y then max.y else c.y) &&
      r.z == (if c.z < min.z then min.z else if c.z > max.z then max.z else c.z)
  {
    Min(Max(c, min), max)
  }
}

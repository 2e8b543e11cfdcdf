/** The value algebra of `UIntPoint2` (typedef `uint2`): two `unsigned int`
    lanes, x = u[0] and y = u[1]. Every operator works lane by lane, and the
    arithmetic wraps modulo 2^32 as C++ unsigned arithmetic does. */
module Uint2 {
  import opened CInt

  datatype Lanes = Lanes(x: uint32, y: uint32)

  const ZERO := Lanes(0, 0)

  /** The scalar s in every lane. */
  function Splat(s: uint32): (r: Lanes) {
    Lanes(s, s)
  }

  // Comparators: lane-wise, and a comparison holds only when it holds in every lane.

  /** `p <= q` holds exactly when `q - p` does not wrap in any lane. */
  predicate LessEq(p: Lanes, q: Lanes)
    ensures LessEq(p, q) <==>
      Sub(q, p).x as int == q.x as int - p.x as int &&
      Sub(q, p).y as int == q.y as int - p.y as int
  {
    p.x <= q.x && p.y <= q.y
  }

  predicate Less(p: Lanes, q: Lanes)
    ensures Less(p, q) ==> LessEq(p, q) && p != q
  {
    p.x < q.x && p.y < q.y
  }

  predicate Eq(p: Lanes, q: Lanes)
    ensures Eq(p, q) <==> p == q
  {
    p.x == q.x && p.y == q.y
  }

  predicate Ne(p: Lanes, q: Lanes)
    ensures Ne(p, q) <==> !Eq(p, q)
  {
    p.x != q.x || p.y != q.y
  }

  predicate Greater(p: Lanes, q: Lanes)
    ensures Greater(p, q) <==> Less(q, p)
  {
    p.x > q.x && p.y > q.y
  }

  predicate GreaterEq(p: Lanes, q: Lanes)
    ensures GreaterEq(p, q) <==> LessEq(q, p)
  {
    p.x >= q.x && p.y >= q.y
  }

  /** Lane-wise `<=` is a partial order on points. */
  lemma LessEqPartialOrder(p: Lanes, q: Lanes, r: Lanes)
    ensures LessEq(p, p)
    ensures LessEq(p, q) && LessEq(q, p) ==> p == q
    ensures LessEq(p, q) && LessEq(q, r) ==> LessEq(p, r)
  {
  }

  /** The order is not total: `<` and `>=` are not complements of each other. */
  lemma SomePointsIncomparable()
    ensures exists p: Lanes, q: Lanes :: !Less(p, q) && !GreaterEq(p, q)
  {
    var p, q := Lanes(0, 1), Lanes(1, 0);
    assert !Less(p, q) && !GreaterEq(p, q);
  }

  // `operator bool`, `operator!` and IsZero.

  /** `explicit operator bool`: some lane is non-zero. */
  predicate NonZero(p: Lanes)
    ensures NonZero(p) <==> p != ZERO
  {
    p.x != 0 || p.y != 0
  }

  /** `operator!`: the point is empty. */
  predicate Empty(p: Lanes)
    ensures Empty(p) <==> !NonZero(p)
  {
    p.x == 0 && p.y == 0
  }

  predicate IsZero(p: Lanes)
    ensures IsZero(p) <==> p == ZERO
  {
    p.x == 0 && p.y == 0
  }

  lemma EmptyIffIsZero(p: Lanes)
    ensures Empty(p) <==> IsZero(p)
  {
  }

  // Arithmetic operators against another point.

  function Sub(p: Lanes, q: Lanes): (r: Lanes)
    ensures Congruent(r.x as int, p.x as int - q.x as int)
    ensures Congruent(r.y as int, p.y as int - q.y as int)
  {
    Lanes(Wrap(p.x as int - q.x as int), Wrap(p.y as int - q.y as int))
  }

  /** Wrap-around addition; subtracting q again always restores p. */
  function Add(p: Lanes, q: Lanes): (r: Lanes)
    ensures Congruent(r.x as int, p.x as int + q.x as int)
    ensures Congruent(r.y as int, p.y as int + q.y as int)
    ensures Sub(r, q) == p
  {
    var r := Lanes(Wrap(p.x as int + q.x as int), Wrap(p.y as int + q.y as int));
    WrapCongruent(r.x as int - q.x as int, p.x as int);
    WrapCongruent(r.y as int - q.y as int, p.y as int);
    r
  }

  /** Adding q back after subtracting it restores p as well. */
  lemma SubAddRoundTrip(p: Lanes, q: Lanes)
    ensures Add(Sub(p, q), q) == p
  {
    var d := Sub(p, q);
    WrapCongruent(d.x as int + q.x as int, p.x as int);
    WrapCongruent(d.y as int + q.y as int, p.y as int);
  }

  /** Unsigned addition wraps: a sum can end up below the point it started from. */
  lemma AddCanWrap()
    ensures exists p: Lanes, q: Lanes :: !LessEq(p, Add(p, q))
  {
    var p, q := Lanes(0xFFFF_FFFF, 0), Lanes(1, 0);
    assert Add(p, q) == ZERO;
    assert !LessEq(p, Add(p, q));
  }

  function Mul(p: Lanes, q: Lanes): (r: Lanes)
    ensures Congruent(r.x as int, p.x as int * q.x as int)
    ensures Congruent(r.y as int, p.y as int * q.y as int)
  {
    Lanes(Wrap(p.x as int * q.x as int), Wrap(p.y as int * q.y as int))
  }

  /** Unsigned division: each lane is the floor of the quotient. Division by
      a zero lane is undefined in C++, so both divisor lanes must be non-zero. */
  function Div(p: Lanes, q: Lanes): (r: Lanes)
    requires q.x != 0 && q.y != 0
    ensures r.x as int * q.x as int <= p.x as int < (r.x as int + 1) * q.x as int
    ensures r.y as int * q.y as int <= p.y as int < (r.y as int + 1) * q.y as int
    ensures LessEq(r, p)
  {
    Lanes(NatQuot(p.x as int, q.x as int) as uint32, NatQuot(p.y as int, q.y as int) as uint32)
  }

  // Arithmetic operators against a scalar, which acts on every lane.

  function AddScalar(p: Lanes, s: uint32): (r: Lanes)
    ensures r == Add(p, Splat(s))
  {
    Lanes(Wrap(p.x as int + s as int), Wrap(p.y as int + s as int))
  }

  function SubScalar(p: Lanes, s: uint32): (r: Lanes)
    ensures r == Sub(p, Splat(s))
  {
    Lanes(Wrap(p.x as int - s as int), Wrap(p.y as int - s as int))
  }

  function MulScalar(p: Lanes, s: uint32): (r: Lanes)
    ensures r == Mul(p, Splat(s))
  {
    Lanes(Wrap(p.x as int * s as int), Wrap(p.y as int * s as int))
  }

  function DivScalar(p: Lanes, s: uint32): (r: Lanes)
    requires s != 0
    ensures r == Div(p, Splat(s))
  {
    Lanes(NatQuot(p.x as int, s as int) as uint32, NatQuot(p.y as int, s as int) as uint32)
  }

  // The free functions Min, Max and Clamp.

  /** Each lane is the smaller of the two lanes. */
  function Min(p: Lanes, q: Lanes): (r: Lanes)
    ensures LessEq(r, p) && LessEq(r, q)
    ensures (r.x == p.x || r.x == q.x) && (r.y == p.y || r.y == q.y)
  {
    Lanes(if p.x < q.x then p.x else q.x, if p.y < q.y then p.y else q.y)
  }

  /** Each lane is the larger of the two lanes. */
  function Max(p: Lanes, q: Lanes): (r: Lanes)
    ensures GreaterEq(r, p) && GreaterEq(r, q)
    ensures (r.x == p.x || r.x == q.x) && (r.y == p.y || r.y == q.y)
  {
    Lanes(if p.x > q.x then p.x else q.x, if p.y > q.y then p.y else q.y)
  }

  /** Min is the greatest lower bound and Max the least upper bound of the
      lane-wise order. */
  lemma MinMaxAreBounds(p: Lanes, q: Lanes, b: Lanes)
    ensures LessEq(b, Min(p, q)) <==> LessEq(b, p) && LessEq(b, q)
    ensures LessEq(Max(p, q), b) <==> LessEq(p, b) && LessEq(q, b)
  {
  }

  /** Clamp as written: `Max(Min(c, min), max)`. The result is never below
      `max` in any lane. */
  function Clamp(c: Lanes, min: Lanes, max: Lanes): (r: Lanes)
    ensures GreaterEq(r, max)
  {
    Max(Min(c, min), max)
  }

  /** As written, Clamp ignores c altogether whenever min <= max. */
  lemma ClampReturnsUpperBound(c: Lanes, min: Lanes, max: Lanes)
    requires LessEq(min, max)
    ensures Clamp(c, min, max) == max
  {
  }

  /** A point already inside the range is moved to its upper corner. */
  lemma ClampMovesInRangePoint()
    ensures Clamp(Lanes(5, 5), Lanes(0, 0), Lanes(10, 10)) == Lanes(10, 10)
  {
  }

  /** The clamp the callers evidently expect: every lane limited to
      [min, max], and a point inside the range left where it is. */
  function ClampToRange(c: Lanes, min: Lanes, max: Lanes): (r: Lanes)
    ensures LessEq(min, max) ==> LessEq(min, r) && LessEq(r, max)
    ensures LessEq(min, c) && LessEq(c, max) ==> r == c
    ensures LessEq(min, max) ==>
      r.x == (if c.x < min.x then min.x else if c.x > max.x then max.x else c.x) &&
      r.y == (if c.y < min.y then min.y else if c.y > max.y then max.y else c.y)
  {
    Min(Max(c, min), max)
  }
}

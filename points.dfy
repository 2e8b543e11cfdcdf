/** The three integer point classes as objects. Each keeps its lanes in a
    fixed-size array (`u[2]`, `i[2]`, `i[3]`) that the setters, compound
    assignments, Min, Max and MakeAbsolute overwrite in place; Value() reads
    the lanes back as the value the operators of Uint2, Int2 and Int3 act on.
    The argument of a compound assignment may be the object itself: every
    lane is read before it is written, so `p += p` doubles p. */
module Points {
  import opened CInt
  import Uint2
  import Int2
  import Int3

  class UIntPoint2 {
    const u: array<uint32>

    ghost predicate Valid() {
      u.Length == 2
    }

    /** The lanes, x = u[0] and y = u[1] (GetX, GetY). */
    function Value(): (v: Uint2.Lanes)
      reads u
      requires Valid()
    {
      Uint2.Lanes(u[0], u[1])
    }

    /** `UIntPoint2()`: the default constructor calls SetZero. */
    constructor ()
      ensures Valid() && fresh(u)
      ensures Uint2.IsZero(Value())
    {
      u := new uint32[2];
      new;
      SetZero();
    }

    /** `UIntPoint2(xy)`: one value in both lanes. */
    constructor Broadcast(xy: uint32)
      ensures Valid() && fresh(u)
      ensures Value() == Uint2.Splat(xy)
    {
      u := new uint32[2];
      new;
      Set(xy);
    }

    /** `UIntPoint2(x, y)`. */
    constructor FromLanes(x: uint32, y: uint32)
      ensures Valid() && fresh(u)
      ensures Value() == Uint2.Lanes(x, y)
    {
      u := new uint32[2];
      new;
      SetLanes(x, y);
    }

    /** `UIntPoint2(const long& xy)`: calls Set(long xy). */
    constructor BroadcastSigned(xy: int32)
      ensures Valid() && fresh(u)
      ensures Value() == Uint2.Splat(ToUnsigned(xy))
    {
      u := new uint32[2];
      new;
      SetSigned(xy);
    }

    /** `UIntPoint2(const long& x, const long& y)`: calls Set(long x, long y). */
    constructor FromSignedLanes(x: int32, y: int32)
      ensures Valid() && fresh(u)
      ensures Value() == Uint2.Lanes(ToUnsigned(x), ToUnsigned(y))
    {
      u := new uint32[2];
      new;
      SetSignedLanes(x, y);
    }

    /** `UIntPoint2(const IntPoint2&)`: each lane cast to `unsigned int`. */
    constructor FromInt2(p: IntPoint2)
      requires p.Valid()
      ensures Valid() && fresh(u)
      ensures Value() == Int2.ToUint2(p.Value())
    {
      u := new uint32[2];
      new;
      u[0], u[1] := ToUnsigned(p.i[0]), ToUnsigned(p.i[1]);
    }

    method SetZero()
      requires Valid()
      modifies u
      ensures Uint2.IsZero(Value())
    {
      u[0], u[1] := 0, 0;
    }

    method SetX(x: uint32)
      requires Valid()
      modifies u
      ensures Value() == old(Value()).(x := x)
    {
      u[0] := x;
    }

    method SetY(y: uint32)
      requires Valid()
      modifies u
      ensures Value() == old(Value()).(y := y)
    {
      u[1] := y;
    }

    /** `Set(unsigned long xy)`: broadcast. */
    method Set(xy: uint32)
      requires Valid()
      modifies u
      ensures Value() == Uint2.Splat(xy)
    {
      u[0], u[1] := xy, xy;
    }

    /** `Set(long xy)`: broadcast after `static_cast<unsigned int>`. */
    method SetSigned(xy: int32)
      requires Valid()
      modifies u
      ensures Value() == Uint2.Splat(ToUnsigned(xy))
    {
      var v := ToUnsigned(xy);
      u[0], u[1] := v, v;
    }

    /** `Set(x, y)` from unsigned lanes. */
    method SetLanes(x: uint32, y: uint32)
      requires Valid()
      modifies u
      ensures Value() == Uint2.Lanes(x, y)
    {
      u[0], u[1] := x, y;
    }

    /** `Set(long x, long y)`: each lane `static_cast<unsigned int>`. */
    method SetSignedLanes(x: int32, y: int32)
      requires Valid()
      modifies u
      ensures Value() == Uint2.Lanes(ToUnsigned(x), ToUnsigned(y))
    {
      u[0], u[1] := ToUnsigned(x), ToUnsigned(y);
    }

    /** `Set(const UIntPoint2&)` and copy assignment. */
    method Assign(p: UIntPoint2)
      requires Valid() && p.Valid()
      modifies u
      ensures Value() == old(p.Value())
    {
      u[0], u[1] := p.u[0], p.u[1];
    }

    method AddAssign(p: UIntPoint2)
      requires Valid() && p.Valid()
      modifies u
      ensures Value() == Uint2.Add(old(Value()), old(p.Value()))
    {
      u[0] := Wrap(u[0] as int + p.u[0] as int);
      u[1] := Wrap(u[1] as int + p.u[1] as int);
    }

    method SubAssign(p: UIntPoint2)
      requires Valid() && p.Valid()
      modifies u
      ensures Value() == Uint2.Sub(old(Value()), old(p.Value()))
    {
      u[0] := Wrap(u[0] as int - p.u[0] as int);
      u[1] := Wrap(u[1] as int - p.u[1] as int);
    }

    method MulAssign(p: UIntPoint2)
      requires Valid() && p.Valid()
      modifies u
      ensures Value() == Uint2.Mul(old(Value()), old(p.Value()))
    {
      u[0] := Wrap(u[0] as int * p.u[0] as int);
      u[1] := Wrap(u[1] as int * p.u[1] as int);
    }

    method DivAssign(p: UIntPoint2)
      requires Valid() && p.Valid()
      requires p.Value().x != 0 && p.Value().y != 0
      modifies u
      ensures Value() == Uint2.Div(old(Value()), old(p.Value()))
    {
      u[0] := NatQuot(u[0] as int, p.u[0] as int) as uint32;
      u[1] := NatQuot(u[1] as int, p.u[1] as int) as uint32;
    }

    method AddAssignScalar(s: uint32)
      requires Valid()
      modifies u
      ensures Value() == Uint2.AddScalar(old(Value()), s)
    {
      u[0] := Wrap(u[0] as int + s as int);
      u[1] := Wrap(u[1] as int + s as int);
    }

    method SubAssignScalar(s: uint32)
      requires Valid()
      modifies u
      ensures Value() == Uint2.SubScalar(old(Value()), s)
    {
      u[0] := Wrap(u[0] as int - s as int);
      u[1] := Wrap(u[1] as int - s as int);
    }

    method MulAssignScalar(s: uint32)
      requires Valid()
      modifies u
      ensures Value() == Uint2.MulScalar(old(Value()), s)
    {
      u[0] := Wrap(u[0] as int * s as int);
      u[1] := Wrap(u[1] as int * s as int);
    }

    method DivAssignScalar(s: uint32)
      requires Valid()
      requires s != 0
      modifies u
      ensures Value() == Uint2.DivScalar(old(Value()), s)
    {
      u[0] := NatQuot(u[0] as int, s as int) as uint32;
      u[1] := NatQuot(u[1] as int, s as int) as uint32;
    }

    /** In-place Min: the same lanes the free Min returns. */
    method Min(p: UIntPoint2)
      requires Valid() && p.Valid()
      modifies u
      ensures Value() == Uint2.Min(old(Value()), old(p.Value()))
    {
      u[0] := if u[0] < p.u[0] then u[0] else p.u[0];
      u[1] := if u[1] < p.u[1] then u[1] else p.u[1];
    }

    /** In-place Max: the same lanes the free Max returns. */
    method Max(p: UIntPoint2)
      requires Valid() && p.Valid()
      modifies u
      ensures Value() == Uint2.Max(old(Value()), old(p.Value()))
    {
      u[0] := if u[0] > p.u[0] then u[0] else p.u[0];
      u[1] := if u[1] > p.u[1] then u[1] else p.u[1];
    }
  }

  class IntPoint2 {
    const i: array<int32>

    ghost predicate Valid() {
      i.Length == 2
    }

    /** The lanes, x = i[0] and y = i[1] (GetX, GetY). */
    function Value(): (v: Int2.Lanes)
      reads i
      requires Valid()
    {
      Int2.Lanes(i[0], i[1])
    }

    /** `IntPoint2()`: the lanes start from their `{ 0, 0 }` initialiser. */
    constructor ()
      ensures Valid() && fresh(i)
      ensures Int2.IsZero(Value())
    {
      i := new int32[2](_ => 0);
    }

    /** `IntPoint2(long xy)`: one value in both lanes. */
    constructor Broadcast(xy: int32)
      ensures Valid() && fresh(i)
      ensures Value() == Int2.Splat(xy)
    {
      i := new int32[2](_ => 0);
      new;
      Set(xy);
    }

    /** `IntPoint2(x, y)`. */
    constructor FromLanes(x: int32, y: int32)
      ensures Valid() && fresh(i)
      ensures Value() == Int2.Lanes(x, y)
    {
      i := new int32[2](_ => 0);
      new;
      SetLanes(x, y);
    }

    /** `IntPoint2(unsigned int x, unsigned int y)`. */
    constructor FromUnsignedLanes(x: uint32, y: uint32)
      ensures Valid() && fresh(i)
      ensures Value() == Int2.Lanes(ToSigned(x), ToSigned(y))
    {
      i := new int32[2](_ => 0);
      new;
      SetUnsignedLanes(x, y);
    }

    /** `IntPoint2(const UIntPoint2&)`: calls Set(const UIntPoint2&). */
    constructor FromUInt(p: UIntPoint2)
      requires p.Valid()
      ensures Valid() && fresh(i)
      ensures Value() == Int2.FromUint2(p.Value())
    {
      i := new int32[2](_ => 0);
      new;
      SetFromUInt(p);
    }

    method SetZero()
      requires Valid()
      modifies i
      ensures Int2.IsZero(Value())
    {
      i[0], i[1] := 0, 0;
    }

    method SetX(x: int32)
      requires Valid()
      modifies i
      ensures Value() == old(Value()).(x := x)
    {
      i[0] := x;
    }

    method SetY(y: int32)
      requires Valid()
      modifies i
      ensures Value() == old(Value()).(y := y)
    {
      i[1] := y;
    }

    /** `Set(long xy)`: broadcast. */
    method Set(xy: int32)
      requires Valid()
      modifies i
      ensures Value() == Int2.Splat(xy)
    {
      i[0], i[1] := xy, xy;
    }

    /** `Set(x, y)` from signed lanes. */
    method SetLanes(x: int32, y: int32)
      requires Valid()
      modifies i
      ensures Value() == Int2.Lanes(x, y)
    {
      i[0], i[1] := x, y;
    }

    /** `Set(unsigned int x, unsigned int y)`: each lane `static_cast<int>`. */
    method SetUnsignedLanes(x: uint32, y: uint32)
      requires Valid()
      modifies i
      ensures Value() == Int2.Lanes(ToSigned(x), ToSigned(y))
    {
      i[0], i[1] := ToSigned(x), ToSigned(y);
    }

    /** `Set(const UIntPoint2&)`. */
    method SetFromUInt(p: UIntPoint2)
      requires Valid() && p.Valid()
      modifies i
      ensures Value() == Int2.FromUint2(p.Value())
    {
      i[0], i[1] := ToSigned(p.u[0]), ToSigned(p.u[1]);
    }

    /** `Set(const IntPoint2&)` and copy assignment. */
    method Assign(p: IntPoint2)
      requires Valid() && p.Valid()
      modifies i
      ensures Value() == old(p.Value())
    {
      i[0], i[1] := p.i[0], p.i[1];
    }

    method AddAssign(p: IntPoint2)
      requires Valid() && p.Valid()
      requires Int2.AddFits(Value(), p.Value())
      modifies i
      ensures Value() == Int2.Add(old(Value()), old(p.Value()))
    {
      i[0] := i[0] + p.i[0];
      i[1] := i[1] + p.i[1];
    }

    method SubAssign(p: IntPoint2)
      requires Valid() && p.Valid()
      requires Int2.SubFits(Value(), p.Value())
      modifies i
      ensures Value() == Int2.Sub(old(Value()), old(p.Value()))
    {
      i[0] := i[0] - p.i[0];
      i[1] := i[1] - p.i[1];
    }

    method MulAssign(p: IntPoint2)
      requires Valid() && p.Valid()
      requires Int2.MulFits(Value(), p.Value())
      modifies i
      ensures Value() == Int2.Mul(old(Value()), old(p.Value()))
    {
      i[0] := i[0] * p.i[0];
      i[1] := i[1] * p.i[1];
    }

    method DivAssign(p: IntPoint2)
      requires Valid() && p.Valid()
      requires Int2.DivDefined(Value(), p.Value())
      modifies i
      ensures Value() == Int2.Div(old(Value()), old(p.Value()))
    {
      i[0] := Quot(i[0], p.i[0]);
      i[1] := Quot(i[1], p.i[1]);
    }

    method AddAssignScalar(s: int32)
      requires Valid()
      requires Int2.AddFits(Value(), Int2.Splat(s))
      modifies i
      ensures Value() == Int2.AddScalar(old(Value()), s)
    {
      i[0] := i[0] + s;
      i[1] := i[1] + s;
    }

    method SubAssignScalar(s: int32)
      requires Valid()
      requires Int2.SubFits(Value(), Int2.Splat(s))
      modifies i
      ensures Value() == Int2.SubScalar(old(Value()), s)
    {
      i[0] := i[0] - s;
      i[1] := i[1] - s;
    }

    method MulAssignScalar(s: int32)
      requires Valid()
      requires Int2.MulFits(Value(), Int2.Splat(s))
      modifies i
      ensures Value() == Int2.MulScalar(old(Value()), s)
    {
      i[0] := i[0] * s;
      i[1] := i[1] * s;
    }

    method DivAssignScalar(s: int32)
      requires Valid()
      requires Int2.DivDefined(Value(), Int2.Splat(s))
      modifies i
      ensures Value() == Int2.DivScalar(old(Value()), s)
    {
      i[0] := Quot(i[0], s);
      i[1] := Quot(i[1], s);
    }

    /** In-place Min: the same lanes the free Min returns. */
    method Min(p: IntPoint2)
      requires Valid() && p.Valid()
      modifies i
      ensures Value() == Int2.Min(old(Value()), old(p.Value()))
    {
      i[0] := if i[0] < p.i[0] then i[0] else p.i[0];
      i[1] := if i[1] < p.i[1] then i[1] else p.i[1];
    }

    /** In-place Max: the same lanes the free Max returns. */
    method Max(p: IntPoint2)
      requires Valid() && p.Valid()
      modifies i
      ensures Value() == Int2.Max(old(Value()), old(p.Value()))
    {
      i[0] := if i[0] > p.i[0] then i[0] else p.i[0];
      i[1] := if i[1] > p.i[1] then i[1] else p.i[1];
    }

    /** `std::abs` of every lane, in place; undefined for an INT_MIN lane. */
    method MakeAbsolute()
      requires Valid()
      requires Int2.NoIntMin(Value())
      modifies i
      ensures Value() == Int2.Absolute(old(Value()))
    {
      i[0] := if i[0] < 0 then -i[0] else i[0];
      i[1] := if i[1] < 0 then -i[1] else i[1];
    }
  }

  class IntPoint3 {
    const i: array<int32>

    ghost predicate Valid() {
      i.Length == 3
    }

    /** The lanes, x = i[0], y = i[1] and z = i[2] (GetX, GetY, GetZ). */
    function Value(): (v: Int3.Lanes)
      reads i
      requires Valid()
    {
      Int3.Lanes(i[0], i[1], i[2])
    }

    /** `IntPoint3()`: the lanes start from their `{ 0, 0, 0 }` initialiser. */
    constructor ()
      ensures Valid() && fresh(i)
      ensures Int3.IsZero(Value())
    {
      i := new int32[3](_ => 0);
    }

    /** `IntPoint3(long xyz)`: one value in every lane. */
    constructor Broadcast(xyz: int32)
      ensures Valid() && fresh(i)
      ensures Value() == Int3.Splat(xyz)
    {
      i := new int32[3](_ => 0);
      new;
      Set(xyz);
    }

    /** `IntPoint3(x, y, z)`. */
    constructor FromLanes(x: int32, y: int32, z: int32)
      ensures Valid() && fresh(i)
      ensures Value() == Int3.Lanes(x, y, z)
    {
      i := new int32[3](_ => 0);
      new;
      SetLanes(x, y, z);
    }

    /** `IntPoint3(unsigned int x, unsigned int y, unsigned int z)`. */
    constructor FromUnsignedLanes(x: uint32, y: uint32, z: uint32)
      ensures Valid() && fresh(i)
      ensures Value() == Int3.Lanes(ToSigned(x), ToSigned(y), ToSigned(z))
    {
      i := new int32[3](_ => 0);
      new;
      SetUnsignedLanes(x, y, z);
    }

    method SetZero()
      requires Valid()
      modifies i
      ensures Int3.IsZero(Value())
    {
      i[0], i[1], i[2] := 0, 0, 0;
    }

    method SetX(x: int32)
      requires Valid()
      modifies i
      ensures Value() == old(Value()).(x := x)
    {
      i[0] := x;
    }

    method SetY(y: int32)
      requires Valid()
      modifies i
      ensures Value() == old(Value()).(y := y)
    {
      i[1] := y;
    }

    method SetZ(z: int32)
      requires Valid()
      modifies i
      ensures Value() == old(Value()).(z := z)
    {
      i[2] := z;
    }

    /** `Set(long xyz)`: broadcast. */
    method Set(xyz: int32)
      requires Valid()
      modifies i
      ensures Value() == Int3.Splat(xyz)
    {
      i[0], i[1], i[2] := xyz, xyz, xyz;
    }

    /** `Set(x, y, z)` from signed lanes. */
    method SetLanes(x: int32, y: int32, z: int32)
      requires Valid()
      modifies i
      ensures Value() == Int3.Lanes(x, y, z)
    {
      i[0], i[1], i[2] := x, y, z;
    }

    /** `Set(unsigned int x, unsigned int y, unsigned int z)`: each lane
        `static_cast<int>`. */
    method SetUnsignedLanes(x: uint32, y: uint32, z: uint32)
      requires Valid()
      modifies i
      ensures Value() == Int3.Lanes(ToSigned(x), ToSigned(y), ToSigned(z))
    {
      i[0], i[1], i[2] := ToSigned(x), ToSigned(y), ToSigned(z);
    }

    /** `Set(const IntPoint3&)` and copy assignment. */
    method Assign(p: IntPoint3)
      requires Valid() && p.Valid()
      modifies i
      ensures Value() == old(p.Value())
    {
      i[0], i[1], i[2] := p.i[0], p.i[1], p.i[2];
    }

    method AddAssign(p: IntPoint3)
      requires Valid() && p.Valid()
      requires Int3.AddFits(Value(), p.Value())
      modifies i
      ensures Value() == Int3.Add(old(Value()), old(p.Value()))
    {
      i[0] := i[0] + p.i[0];
      i[1] := i[1] + p.i[1];
      i[2] := i[2] + p.i[2];
    }

    method SubAssign(p: IntPoint3)
      requires Valid() && p.Valid()
      requires Int3.SubFits(Value(), p.Value())
      modifies i
      ensures Value() == Int3.Sub(old(Value()), old(p.Value()))
    {
      i[0] := i[0] - p.i[0];
      i[1] := i[1] - p.i[1];
      i[2] := i[2] - p.i[2];
    }

    method MulAssign(p: IntPoint3)
      requires Valid() && p.Valid()
      requires Int3.MulFits(Value(), p.Value())
      modifies i
      ensures Value() == Int3.Mul(old(Value()), old(p.Value()))
    {
      i[0] := i[0] * p.i[0];
      i[1] := i[1] * p.i[1];
      i[2] := i[2] * p.i[2];
    }

    method DivAssign(p: IntPoint3)
      requires Valid() && p.Valid()
      requires Int3.DivDefined(Value(), p.Value())
      modifies i
      ensures Value() == Int3.Div(old(Value()), old(p.Value()))
    {
      i[0] := Quot(i[0], p.i[0]);
      i[1] := Quot(i[1], p.i[1]);
      i[2] := Quot(i[2], p.i[2]);
    }

    method AddAssignScalar(s: int32)
      requires Valid()
      requires Int3.AddFits(Value(), Int3.Splat(s))
      modifies i
      ensures Value() == Int3.AddScalar(old(Value()), s)
    {
      i[0] := i[0] + s;
      i[1] := i[1] + s;
      i[2] := i[2] + s;
    }

    method SubAssignScalar(s: int32)
      requires Valid()
      requires Int3.SubFits(Value(), Int3.Splat(s))
      modifies i
      ensures Value() == Int3.SubScalar(old(Value()), s)
    {
      i[0] := i[0] - s;
      i[1] := i[1] - s;
      i[2] := i[2] - s;
    }

    method MulAssignScalar(s: int32)
      requires Valid()
      requires Int3.MulFits(Value(), Int3.Splat(s))
      modifies i
      ensures Value() == Int3.MulScalar(old(Value()), s)
    {
      i[0] := i[0] * s;
      i[1] := i[1] * s;
      i[2] := i[2] * s;
    }

    method DivAssignScalar(s: int32)
      requires Valid()
      requires Int3.DivDefined(Value(), Int3.Splat(s))
      modifies i
      ensures Value() == Int3.DivScalar(old(Value()), s)
    {
      i[0] := Quot(i[0], s);
      i[1] := Quot(i[1], s);
      i[2] := Quot(i[2], s);
    }

    /** In-place Max: the same lanes the free Max returns. */
    method Max(p: IntPoint3)
      requires Valid() && p.Valid()
      modifies i
      ensures Value() == Int3.Max(old(Value()), old(p.Value()))
    {
      i[0] := if i[0] > p.i[0] then i[0] else p.i[0];
      i[1] := if i[1] > p.i[1] then i[1] else p.i[1];
      i[2] := if i[2] > p.i[2] then i[2] else p.i[2];
    }

    /** In-place Min: the same lanes the free Min returns. */
    method Min(p: IntPoint3)
      requires Valid() && p.Valid()
      modifies i
      ensures Value() == Int3.Min(old(Value()), old(p.Value()))
    {
      i[0] := if i[0] < p.i[0] then i[0] else p.i[0];
      i[1] := if i[1] < p.i[1] then i[1] else p.i[1];
      i[2] := if i[2] < p.i[2] then i[2] else p.i[2];
    }

    /** `std::abs` of every lane, in place; undefined for an INT_MIN lane. */
    method MakeAbsolute()
      requires Valid()
      requires Int3.NoIntMin(Value())
      modifies i
      ensures Value() == Int3.Absolute(old(Value()))
    {
      i[0] := if i[0] < 0 then -i[0] else i[0];
      i[1] := if i[1] < 0 then -i[1] else i[1];
      i[2] := if i[2] < 0 then -i[2] else i[2];
    }
  }
}

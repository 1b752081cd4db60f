/**
 * Idealised 3D arithmetic behind Qt's QVector2D/3D/4D, QQuaternion and QMatrix4x4.
 * Floats are modelled as reals; the square root of the C library is never computed
 * here: members that need one take it as a parameter `sqrt` that satisfies IsSqrt.
 */
module Math3D {
  /** FLT_EPSILON of IEEE single precision, 2^-23. */
  const FltEpsilon: real := 1.0 / 8388608.0

  datatype Vec2 = Vec2(x: real, y: real)
  datatype Vec3 = Vec3(x: real, y: real, z: real)
  datatype Vec4 = Vec4(x: real, y: real, z: real, w: real)

  /** A quaternion (scalar part w). */
  datatype Quat = Quat(w: real, x: real, y: real, z: real)

  /** A 4x4 matrix given by its four rows. */
  datatype Mat4 = Mat4(r0: Vec4, r1: Vec4, r2: Vec4, r3: Vec4)

  /**
   * Result of a ray query whose distance is an in/out parameter: `distance` is the
   * value the caller's variable holds afterwards.
   */
  datatype RayResult = RayResult(hit: bool, distance: real)

  const Zero3: Vec3 := Vec3(0.0, 0.0, 0.0)
  const UnitY: Vec3 := Vec3(0.0, 1.0, 0.0)
  const IdentityQuat: Quat := Quat(1.0, 0.0, 0.0, 0.0)

  function Floor(x: real): (r: int)
    ensures r as real <= x < r as real + 1.0
  {
    x.Floor
  }

  function Ceil(x: real): (r: int)
    ensures r as real - 1.0 < x <= r as real
  {
    -((-x).Floor)
  }

  /** C++ float-to-int conversion: truncation toward zero. */
  function Trunc(x: real): (r: int)
    ensures x >= 0.0 ==> r == Floor(x)
    ensures x < 0.0 ==> r == Ceil(x)
  {
    if x >= 0.0 then x.Floor else -((-x).Floor)
  }

  function Add(a: Vec3, b: Vec3): Vec3 { Vec3(a.x + b.x, a.y + b.y, a.z + b.z) }
  function Sub(a: Vec3, b: Vec3): Vec3 { Vec3(a.x - b.x, a.y - b.y, a.z - b.z) }
  function Scale(a: Vec3, s: real): Vec3 { Vec3(a.x * s, a.y * s, a.z * s) }
  function Dot(a: Vec3, b: Vec3): real { a.x * b.x + a.y * b.y + a.z * b.z }
  function Cross(a: Vec3, b: Vec3): Vec3 {
    Vec3(a.y * b.z - a.z * b.y, a.z * b.x - a.x * b.z, a.x * b.y - a.y * b.x)
  }
  function LengthSq(a: Vec3): real { Dot(a, a) }

  /** Division of every component, as QVector3D's operator/. */
  function Div(a: Vec3, s: real): Vec3
    requires s != 0.0
  {
    Vec3(a.x / s, a.y / s, a.z / s)
  }

  function Add4(a: Vec4, b: Vec4): Vec4 { Vec4(a.x + b.x, a.y + b.y, a.z + b.z, a.w + b.w) }
  function Sub4(a: Vec4, b: Vec4): Vec4 { Vec4(a.x - b.x, a.y - b.y, a.z - b.z, a.w - b.w) }
  function Dot4(a: Vec4, b: Vec4): real { a.x * b.x + a.y * b.y + a.z * b.z + a.w * b.w }
  function Xyz(a: Vec4): Vec3 { Vec3(a.x, a.y, a.z) }

  /** Adding a non-zero vector changes a vector, from either side. */
  lemma AddNonZeroMoves(a: Vec3, b: Vec3)
    requires a != Zero3
    ensures Add(a, b) != b && Add(b, a) == Add(a, b)
  {
  }

  /** Taking a vector back off a sum leaves the other summand. */
  lemma AddThenSub(a: Vec3, b: Vec3)
    ensures Sub(Add(a, b), a) == b
  {
  }

  /** A point d along n from q, moved by s - d along n, ends up s along n from q. */
  lemma PushAlong(p: Vec3, q: Vec3, n: Vec3, d: real, s: real)
    requires Scale(n, d) == Sub(p, q)
    ensures Sub(Add(p, Scale(n, s - d)), q) == Scale(n, s)
  {
    assert n.x * d == p.x - q.x && n.y * d == p.y - q.y && n.z * d == p.z - q.z;
    assert n.x * (s - d) == n.x * s - n.x * d;
    assert n.y * (s - d) == n.y * s - n.y * d;
    assert n.z * (s - d) == n.z * s - n.z * d;
  }

  lemma LengthSqNonNegative(a: Vec3)
    ensures LengthSq(a) >= 0.0
  {
  }

  /** `f` behaves as the square root on the non-negative reals. */
  ghost predicate IsSqrt(f: real -> real)
  {
    forall x: real :: 0.0 <= x ==> 0.0 <= f(x) && f(x) * f(x) == x
  }

  lemma SquareNonNegative(x: real)
    ensures x * x >= 0.0
  {
  }

  lemma NonNegativeProduct(a: real, b: real)
    requires a >= 0.0 && b >= 0.0
    ensures a * b >= 0.0
  {
  }

  /** Squaring is strictly monotone on the non-negative reals. */
  lemma SquareStrictlyMonotone(a: real, b: real)
    requires 0.0 <= b < a
    ensures b * b < a * a
  {
    var d := a - b;
    assert d > 0.0;
    assert a * a == (b + d) * (b + d) == b * b + 2.0 * b * d + d * d;
    assert b * d >= 0.0;
    assert d * d > 0.0;
  }

  /** A vector with a non-zero y has a positive squared length. */
  lemma LengthSqWithY(v: Vec3)
    requires v.y != 0.0
    ensures LengthSq(v) > 0.0
  {
    var a := if v.y > 0.0 then v.y else -v.y;
    SquareStrictlyMonotone(a, 0.0);
    assert v.y * v.y == a * a;
    SquareNonNegative(v.x);
    SquareNonNegative(v.z);
  }

  /** The square root is monotone: a <= b implies sqrt(a) <= sqrt(b). */
  lemma SqrtMonotone(sqrt: real -> real, a: real, b: real)
    requires IsSqrt(sqrt)
    requires 0.0 <= a <= b
    ensures sqrt(a) <= sqrt(b)
  {
    if sqrt(b) < sqrt(a) {
      SquareStrictlyMonotone(sqrt(a), sqrt(b));
    }
  }

  /** The square root of a square is the absolute value. */
  lemma SqrtOfSquare(sqrt: real -> real, a: real)
    requires IsSqrt(sqrt)
    requires 0.0 <= a
    ensures sqrt(a * a) == a
  {
    var s := sqrt(a * a);
    if s < a {
      SquareStrictlyMonotone(a, s);
    } else if s > a {
      SquareStrictlyMonotone(s, a);
    }
  }

  /** Length of a vector (QVector3D::length). */
  function Length(sqrt: real -> real, a: Vec3): (r: real)
    requires IsSqrt(sqrt)
    ensures r >= 0.0 && r * r == LengthSq(a)
  {
    LengthSqNonNegative(a);
    sqrt(LengthSq(a))
  }

  /** Scaling back by the divisor undoes a division. */
  lemma ScaleUndoesDiv(a: Vec3, s: real)
    requires s != 0.0
    ensures Scale(Div(a, s), s) == a
  {
    var n := Div(a, s);
    assert n.x * s == a.x && n.y * s == a.y && n.z * s == a.z;
  }

  /** |w + t*v|^2 expanded in t. */
  lemma LengthSqAlong(w: Vec3, v: Vec3, t: real)
    ensures LengthSq(Add(w, Scale(v, t))) == LengthSq(w) + 2.0 * t * Dot(v, w) + t * t * LengthSq(v)
  {
    assert (w.x + v.x * t) * (w.x + v.x * t) == w.x * w.x + 2.0 * t * (v.x * w.x) + t * t * (v.x * v.x);
    assert (w.y + v.y * t) * (w.y + v.y * t) == w.y * w.y + 2.0 * t * (v.y * w.y) + t * t * (v.y * v.y);
    assert (w.z + v.z * t) * (w.z + v.z * t) == w.z * w.z + 2.0 * t * (v.z * w.z) + t * t * (v.z * v.z);
  }

  /** Dividing a vector by its own non-zero length gives a unit vector. */
  lemma NormalizedIsUnit(a: Vec3, len: real)
    requires len > 0.0 && len * len == LengthSq(a)
    ensures LengthSq(Div(a, len)) == 1.0
  {
    var n := Div(a, len);
    assert n.x * len == a.x && n.y * len == a.y && n.z * len == a.z;
    calc {
      LengthSq(n) * (len * len);
      n.x * n.x * (len * len) + n.y * n.y * (len * len) + n.z * n.z * (len * len);
      (n.x * len) * (n.x * len) + (n.y * len) * (n.y * len) + (n.z * len) * (n.z * len);
      a.x * a.x + a.y * a.y + a.z * a.z;
      len * len;
    }
    assert len * len > 0.0;
  }

  /**
   * QVector3D::normalized: the vector divided by its length, or the zero vector when
   * its length is zero.
   */
  function Normalized(sqrt: real -> real, a: Vec3): (r: Vec3)
    requires IsSqrt(sqrt)
    ensures LengthSq(a) == 0.0 ==> r == Zero3
    ensures LengthSq(a) != 0.0 ==> LengthSq(r) == 1.0 && Scale(r, Length(sqrt, a)) == a
  {
    if LengthSq(a) == 0.0 then Zero3
    else
      var len := Length(sqrt, a);
      NormalizedIsUnit(a, len);
      Div(a, len)
  }

  /** The cross product is orthogonal to both factors. */
  lemma CrossOrthogonal(u: Vec3, v: Vec3)
    ensures Dot(Cross(u, v), u) == 0.0 && Dot(Cross(u, v), v) == 0.0
  {
  }

  /** QVector3D::normal(a, b, c): the normalised cross product of the edges b - a and c - a. */
  function PlaneNormal(sqrt: real -> real, a: Vec3, b: Vec3, c: Vec3): Vec3
    requires IsSqrt(sqrt)
  {
    Normalized(sqrt, Cross(Sub(b, a), Sub(c, a)))
  }

  /** The plane normal is orthogonal to both edges, and unit unless the points are collinear. */
  lemma PlaneNormalOrthogonal(sqrt: real -> real, a: Vec3, b: Vec3, c: Vec3)
    requires IsSqrt(sqrt)
    ensures var n := PlaneNormal(sqrt, a, b, c);
            Dot(n, Sub(b, a)) == 0.0 && Dot(n, Sub(c, a)) == 0.0
            && (LengthSq(Cross(Sub(b, a), Sub(c, a))) != 0.0 ==> LengthSq(n) == 1.0)
  {
    var cr := Cross(Sub(b, a), Sub(c, a));
    CrossOrthogonal(Sub(b, a), Sub(c, a));
    var n := PlaneNormal(sqrt, a, b, c);
    if LengthSq(cr) != 0.0 {
      var len := Length(sqrt, cr);
      assert Scale(n, len) == cr;
      assert Dot(n, Sub(b, a)) * len == Dot(cr, Sub(b, a));
      assert Dot(n, Sub(c, a)) * len == Dot(cr, Sub(c, a));
      assert len != 0.0;
    }
  }

  /** Row-by-column product (QMatrix4x4::operator*), the composition of two transforms. */
  function Col(m: Mat4, j: nat): Vec4
    requires j < 4
  {
    if j == 0 then Vec4(m.r0.x, m.r1.x, m.r2.x, m.r3.x)
    else if j == 1 then Vec4(m.r0.y, m.r1.y, m.r2.y, m.r3.y)
    else if j == 2 then Vec4(m.r0.z, m.r1.z, m.r2.z, m.r3.z)
    else Vec4(m.r0.w, m.r1.w, m.r2.w, m.r3.w)
  }

  function RowTimes(r: Vec4, b: Mat4): Vec4 {
    Vec4(Dot4(r, Col(b, 0)), Dot4(r, Col(b, 1)), Dot4(r, Col(b, 2)), Dot4(r, Col(b, 3)))
  }

  function Compose(a: Mat4, b: Mat4): Mat4 {
    Mat4(RowTimes(a.r0, b), RowTimes(a.r1, b), RowTimes(a.r2, b), RowTimes(a.r3, b))
  }

  const Identity: Mat4 := Mat4(Vec4(1.0, 0.0, 0.0, 0.0), Vec4(0.0, 1.0, 0.0, 0.0),
                               Vec4(0.0, 0.0, 1.0, 0.0), Vec4(0.0, 0.0, 0.0, 1.0))

  /** QMatrix4x4::translate applied to the identity. */
  function Translation(t: Vec3): Mat4 {
    Mat4(Vec4(1.0, 0.0, 0.0, t.x), Vec4(0.0, 1.0, 0.0, t.y),
         Vec4(0.0, 0.0, 1.0, t.z), Vec4(0.0, 0.0, 0.0, 1.0))
  }

  /** QMatrix4x4::rotate(QQuaternion) applied to the identity, for a unit quaternion. */
  function Rotation(q: Quat): Mat4 {
    var xx, yy, zz := q.x * q.x, q.y * q.y, q.z * q.z;
    var xy, xz, yz := q.x * q.y, q.x * q.z, q.y * q.z;
    var xw, yw, zw := q.x * q.w, q.y * q.w, q.z * q.w;
    Mat4(Vec4(1.0 - 2.0 * (yy + zz), 2.0 * (xy - zw), 2.0 * (xz + yw), 0.0),
         Vec4(2.0 * (xy + zw), 1.0 - 2.0 * (xx + zz), 2.0 * (yz - xw), 0.0),
         Vec4(2.0 * (xz - yw), 2.0 * (yz + xw), 1.0 - 2.0 * (xx + yy), 0.0),
         Vec4(0.0, 0.0, 0.0, 1.0))
  }

  /** Rotation of a vector by a quaternion (QQuaternion::rotatedVector). */
  function Rotate(q: Quat, v: Vec3): Vec3 {
    var m := Rotation(q);
    var p := Vec4(v.x, v.y, v.z, 0.0);
    Vec3(Dot4(m.r0, p), Dot4(m.r1, p), Dot4(m.r2, p))
  }

  /** A point mapped by a matrix (QMatrix4x4::map), for affine matrices. */
  function MapPoint(m: Mat4, p: Vec3): Vec3 {
    var h := Vec4(p.x, p.y, p.z, 1.0);
    Vec3(Dot4(m.r0, h), Dot4(m.r1, h), Dot4(m.r2, h))
  }

  /** The identity maps every point to itself. */
  lemma MapIdentity(p: Vec3)
    ensures MapPoint(Identity, p) == p
  {
  }

  /** A translation moves every point by its offset. */
  lemma MapTranslation(t: Vec3, p: Vec3)
    ensures MapPoint(Translation(t), p) == Add(p, t)
  {
  }
}

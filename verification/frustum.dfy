/**
 * FrustumTest: the six clipping planes of a projection * modelview matrix, and the
 * point and sphere tests against them.
 */
module Frustum {
  import opened Math3D

  /** Which rows of the clip matrix combine into each plane, in the order stored. */
  datatype Side = Right | Left | Bottom | Top | Far | Near

  function SideAt(k: nat): Side
    requires k < 6
  {
    [Right, Left, Bottom, Top, Far, Near][k]
  }

  /** The unnormalised plane of a side: row 3 plus or minus row 0, 1 or 2. */
  function RawPlane(clip: Mat4, side: Side): Vec4 {
    match side
    case Right => Sub4(clip.r3, clip.r0)
    case Left => Add4(clip.r3, clip.r0)
    case Bottom => Add4(clip.r3, clip.r1)
    case Top => Sub4(clip.r3, clip.r1)
    case Far => Sub4(clip.r3, clip.r2)
    case Near => Add4(clip.r3, clip.r2)
  }

  function Div4(a: Vec4, s: real): Vec4
    requires s != 0.0
  {
    Vec4(a.x / s, a.y / s, a.z / s, a.w / s)
  }

  /** Every plane has a non-zero normal, so it can be normalised. */
  predicate PlanesDefined(clip: Mat4) {
    forall side: Side :: LengthSq(Xyz(RawPlane(clip, side))) > 0.0
  }

  /** The plane divided by the length of its normal. */
  function NormalisedPlane(sqrt: real -> real, clip: Mat4, side: Side): (pl: Vec4)
    requires IsSqrt(sqrt) && PlanesDefined(clip)
    ensures LengthSq(Xyz(pl)) == 1.0
  {
    var raw := RawPlane(clip, side);
    var len := Length(sqrt, Xyz(raw));
    NormalizedIsUnit(Xyz(raw), len);
    assert Xyz(Div4(raw, len)) == Div(Xyz(raw), len);
    Div4(raw, len)
  }

  /** The planes FrustumTest::sync stores, in the order right, left, bottom, top, far, near. */
  function Planes(sqrt: real -> real, clip: Mat4): (ps: seq<Vec4>)
    requires IsSqrt(sqrt) && PlanesDefined(clip)
    ensures |ps| == 6
    ensures forall k :: 0 <= k < 6 ==> ps[k] == NormalisedPlane(sqrt, clip, SideAt(k))
  {
    seq(6, k requires 0 <= k < 6 => NormalisedPlane(sqrt, clip, SideAt(k)))
  }

  /** n . p + w for a plane (n, w). */
  function Evaluate(plane: Vec4, p: Vec3): real {
    plane.x * p.x + plane.y * p.y + plane.z * p.z + plane.w
  }

  /** isPointInFrustum's condition: strictly on the inner side of every plane. */
  predicate PointInside(planes: seq<Vec4>, p: Vec3) {
    forall k :: 0 <= k < |planes| ==> Evaluate(planes[k], p) > 0.0
  }

  /** isSphereInFrustum's condition: no plane has the centre at -radius or further out. */
  predicate SphereInside(planes: seq<Vec4>, center: Vec3, radius: real) {
    forall k :: 0 <= k < |planes| ==> Evaluate(planes[k], center) > -radius
  }

  /** A sphere accepted with radius r is accepted with every larger radius. */
  lemma SphereMonotoneInRadius(planes: seq<Vec4>, center: Vec3, r: real, r2: real)
    requires r <= r2 && SphereInside(planes, center, r)
    ensures SphereInside(planes, center, r2)
  {
  }

  /** A point inside the frustum is accepted as a sphere of any non-negative radius. */
  lemma PointInsideImpliesSphereInside(planes: seq<Vec4>, center: Vec3, radius: real)
    requires radius >= 0.0 && PointInside(planes, center)
    ensures SphereInside(planes, center, radius)
  {
  }

  /** Clip-space coordinates of a point: clip * (p, 1). */
  function ClipCoordinates(clip: Mat4, p: Vec3): Vec4 {
    var h := Vec4(p.x, p.y, p.z, 1.0);
    Vec4(Dot4(clip.r0, h), Dot4(clip.r1, h), Dot4(clip.r2, h), Dot4(clip.r3, h))
  }

  /** Dividing a plane by a positive length does not change which side a point is on. */
  lemma NormalisationKeepsSide(raw: Vec4, len: real, p: Vec3)
    requires len > 0.0
    ensures Evaluate(Div4(raw, len), p) > 0.0 <==> Evaluate(raw, p) > 0.0
  {
    var n := Div4(raw, len);
    assert n.x * len == raw.x && n.y * len == raw.y && n.z * len == raw.z && n.w * len == raw.w;
    assert Evaluate(n, p) * len == Evaluate(raw, p);
    if Evaluate(n, p) > 0.0 {
      NonNegativeProduct(Evaluate(n, p), len);
      assert Evaluate(n, p) * len != 0.0;
    }
    if Evaluate(raw, p) > 0.0 && Evaluate(n, p) <= 0.0 {
      NonNegativeProduct(-Evaluate(n, p), len);
    }
  }

  /** The clip-space inequality each side stands for. */
  predicate InsideOf(c: Vec4, side: Side) {
    match side
    case Right => c.x < c.w
    case Left => -c.w < c.x
    case Bottom => -c.w < c.y
    case Top => c.y < c.w
    case Far => c.z < c.w
    case Near => -c.w < c.z
  }

  /** Evaluating a plane is linear in the plane. */
  lemma EvaluateLinear(a: Vec4, b: Vec4, p: Vec3)
    ensures Evaluate(Add4(a, b), p) == Evaluate(a, p) + Evaluate(b, p)
    ensures Evaluate(Sub4(a, b), p) == Evaluate(a, p) - Evaluate(b, p)
  {
  }

  /** Each clip coordinate is a row of the matrix evaluated at the point. */
  lemma ClipRows(clip: Mat4, p: Vec3)
    ensures ClipCoordinates(clip, p)
            == Vec4(Evaluate(clip.r0, p), Evaluate(clip.r1, p), Evaluate(clip.r2, p), Evaluate(clip.r3, p))
  {
  }

  /** The raw (unnormalised) plane of a side is positive exactly where its clip-space inequality holds. */
  lemma RawSideMeaning(clip: Mat4, side: Side, p: Vec3)
    ensures Evaluate(RawPlane(clip, side), p) > 0.0 <==> InsideOf(ClipCoordinates(clip, p), side)
  {
    ClipRows(clip, p);
    match side
    case Right => EvaluateLinear(clip.r3, clip.r0, p);
    case Left => EvaluateLinear(clip.r3, clip.r0, p);
    case Bottom => EvaluateLinear(clip.r3, clip.r1, p);
    case Top => EvaluateLinear(clip.r3, clip.r1, p);
    case Far => EvaluateLinear(clip.r3, clip.r2, p);
    case Near => EvaluateLinear(clip.r3, clip.r2, p);
  }

  /** One normalised plane accepts a point iff the point's clip coordinates satisfy its inequality. */
  lemma SideMeaning(sqrt: real -> real, clip: Mat4, side: Side, p: Vec3)
    requires IsSqrt(sqrt) && PlanesDefined(clip)
    ensures Evaluate(NormalisedPlane(sqrt, clip, side), p) > 0.0 <==> InsideOf(ClipCoordinates(clip, p), side)
  {
    var raw := RawPlane(clip, side);
    NormalisationKeepsSide(raw, Length(sqrt, Xyz(raw)), p);
    RawSideMeaning(clip, side, p);
  }

  /**
   * What the extracted planes mean: a point passes the point test iff its clip
   * coordinates (x, y, z, w) satisfy -w < x < w, -w < y < w and -w < z < w.
   */
  lemma PointInsideIffInClipVolume(sqrt: real -> real, clip: Mat4, p: Vec3)
    requires IsSqrt(sqrt) && PlanesDefined(clip)
    ensures var c := ClipCoordinates(clip, p);
            PointInside(Planes(sqrt, clip), p)
            <==> (-c.w < c.x < c.w && -c.w < c.y < c.w && -c.w < c.z < c.w)
  {
    var ps := Planes(sqrt, clip);
    forall k | 0 <= k < 6
      ensures Evaluate(ps[k], p) > 0.0 <==> InsideOf(ClipCoordinates(clip, p), SideAt(k))
    {
      SideMeaning(sqrt, clip, SideAt(k), p);
    }
    assert SideAt(0) == Right && SideAt(1) == Left && SideAt(2) == Bottom;
    assert SideAt(3) == Top && SideAt(4) == Far && SideAt(5) == Near;
  }

  /** A frustum test object: its six-element plane array. */
  class FrustumTest {
    const frustum: array<Vec4>

    ghost predicate Valid()
      reads this
    {
      frustum.Length == 6
    }

    /** The planes start as zero vectors (QVector4D's default). */
    constructor ()
      ensures Valid() && fresh(frustum)
      ensures forall k :: 0 <= k < 6 ==> frustum[k] == Vec4(0.0, 0.0, 0.0, 0.0)
    {
      frustum := new Vec4[6](_ => Vec4(0.0, 0.0, 0.0, 0.0));
    }

    /** FrustumTest::sync(perspective, modelView): the planes of perspective * modelView. */
    method Sync(sqrt: real -> real, perspective: Mat4, modelView: Mat4)
      requires Valid() && IsSqrt(sqrt) && PlanesDefined(Compose(perspective, modelView))
      modifies frustum
      ensures frustum[..] == Planes(sqrt, Compose(perspective, modelView))
    {
      var clip := Compose(perspective, modelView);
      frustum[0] := NormalisedPlane(sqrt, clip, Right);
      frustum[1] := NormalisedPlane(sqrt, clip, Left);
      frustum[2] := NormalisedPlane(sqrt, clip, Bottom);
      frustum[3] := NormalisedPlane(sqrt, clip, Top);
      frustum[4] := NormalisedPlane(sqrt, clip, Far);
      frustum[5] := NormalisedPlane(sqrt, clip, Near);
    }

    /** FrustumTest::isPointInFrustum: false at the first plane with n.p + w <= 0. */
    method IsPointInFrustum(point: Vec3) returns (inside: bool)
      requires Valid()
      ensures inside <==> PointInside(frustum[..], point)
    {
      var p := 0;
      while p < 6
        invariant 0 <= p <= 6
        invariant forall k :: 0 <= k < p ==> Evaluate(frustum[k], point) > 0.0
      {
        var pl := frustum[p];
        if pl.x * point.x + pl.y * point.y + pl.z * point.z + pl.w <= 0.0 {
          return false;
        }
        p := p + 1;
      }
      return true;
    }

    /** FrustumTest::isSphereInFrustum: false at the first plane with n.c + w <= -radius. */
    method IsSphereInFrustum(center: Vec3, radius: real) returns (inside: bool)
      requires Valid()
      ensures inside <==> SphereInside(frustum[..], center, radius)
    {
      var p := 0;
      while p < 6
        invariant 0 <= p <= 6
        invariant forall k :: 0 <= k < p ==> Evaluate(frustum[k], center) > -radius
      {
        var pl := frustum[p];
        if pl.x * center.x + pl.y * center.y + pl.z * center.z + pl.w <= -radius {
          return false;
        }
        p := p + 1;
      }
      return true;
    }
  }
}

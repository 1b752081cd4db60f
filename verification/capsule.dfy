/**
 * Capsule::intersectSphere: a sphere against a capsule (a segment swept by a radius),
 * via the point of the segment nearest to the sphere's centre.
 */
module Capsule {
  import opened Math3D
  import Sphere

  function Clamp01(x: real): (r: real)
    ensures 0.0 <= r <= 1.0
    ensures 0.0 <= x <= 1.0 ==> r == x
  {
    if x < 0.0 then 0.0 else if x > 1.0 then 1.0 else x
  }

  /**
   * The projection parameter of the centre onto the segment, clamped to the segment.
   * A segment with start = end would divide by zero.
   */
  function SegmentFactor(start: Vec3, end: Vec3, center: Vec3): (f: real)
    requires LengthSq(Sub(end, start)) > 0.0
    ensures 0.0 <= f <= 1.0
  {
    var v := Sub(end, start);
    Clamp01(Dot(Sub(center, start), v) / LengthSq(v))
  }

  /** The point start + (end - start) * factor of the segment. */
  function PointAt(start: Vec3, end: Vec3, t: real): Vec3 {
    Add(start, Scale(Sub(end, start), t))
  }

  function ClosestPoint(start: Vec3, end: Vec3, center: Vec3): Vec3
    requires LengthSq(Sub(end, start)) > 0.0
  {
    PointAt(start, end, SegmentFactor(start, end, center))
  }

  /**
   * Capsule::intersectSphere: a hit iff the centre is strictly closer than the sum of
   * the radii to the segment. `normal` and `depth` are the caller's out-parameters,
   * untouched on a miss; the normal is also skipped when the distance is within
   * FLT_EPSILON of zero.
   */
  function IntersectSphere(sqrt: real -> real, start: Vec3, end: Vec3, radiusCapsule: real,
                           center: Vec3, radiusSphere: real, normal: Vec3, depth: real): (res: Sphere.Contact)
    requires IsSqrt(sqrt)
    requires LengthSq(Sub(end, start)) > 0.0
    ensures var distance := Length(sqrt, Sub(center, ClosestPoint(start, end, center)));
            && (res.hit <==> distance < radiusSphere + radiusCapsule)
            && (res.hit ==> res.depth == radiusSphere + radiusCapsule - distance && res.depth > 0.0)
            && (res.hit && distance > FltEpsilon ==>
                  LengthSq(res.normal) == 1.0 && Scale(res.normal, distance) == Sub(center, ClosestPoint(start, end, center)))
            && (res.hit && distance <= FltEpsilon ==> res.normal == normal)
            && (!res.hit ==> res.normal == normal && res.depth == depth)
  {
    var collision := Sub(center, ClosestPoint(start, end, center));
    var distance := Length(sqrt, collision);
    var radi := radiusSphere + radiusCapsule;
    if distance < radi then
      if distance > FltEpsilon then
        NormalizedIsUnit(collision, distance);
        Sphere.Contact(true, Div(collision, distance), -(distance - radi))
      else Sphere.Contact(true, normal, -(distance - radi))
    else Sphere.Contact(false, normal, depth)
  }

  /** |w - t*v|^2 expanded in t. */
  lemma DistanceAlongSegment(w: Vec3, v: Vec3, t: real)
    ensures LengthSq(Sub(w, Scale(v, t))) == LengthSq(w) - 2.0 * t * Dot(w, v) + t * t * LengthSq(v)
  {
  }

  /** The clamped minimiser of t^2 L - 2 t D over [0, 1]. */
  lemma ClampedMinimiser(len: real, d: real, t: real)
    requires len > 0.0 && 0.0 <= t <= 1.0
    ensures var tc := Clamp01(d / len);
            t * t * len - 2.0 * t * d >= tc * tc * len - 2.0 * tc * d
  {
    var ts := d / len;
    assert d == ts * len;
    var tc := Clamp01(ts);
    // t^2 L - 2 t D = L (t - ts)^2 - L ts^2
    assert t * t * len - 2.0 * t * d == len * ((t - ts) * (t - ts)) - len * (ts * ts);
    assert tc * tc * len - 2.0 * tc * d == len * ((tc - ts) * (tc - ts)) - len * (ts * ts);
    var gap := (t - ts) * (t - ts) - (tc - ts) * (tc - ts);
    if ts < 0.0 {
      assert gap == t * (t - 2.0 * ts);
      NonNegativeProduct(t, t - 2.0 * ts);
    } else if ts > 1.0 {
      assert gap == (1.0 - t) * (2.0 * ts - 1.0 - t);
      assert 1.0 - t >= 0.0 && 2.0 * ts - 1.0 - t > 0.0;
      NonNegativeProduct(1.0 - t, 2.0 * ts - 1.0 - t);
    } else {
      assert gap == (t - ts) * (t - ts);
      SquareNonNegative(t - ts);
    }
    assert len * gap >= 0.0;
  }

  /**
   * The clamped projection really is the nearest point of the segment: no point of
   * the segment is closer to the centre.
   */
  lemma ClosestPointIsNearest(start: Vec3, end: Vec3, center: Vec3, t: real)
    requires LengthSq(Sub(end, start)) > 0.0
    requires 0.0 <= t <= 1.0
    ensures LengthSq(Sub(center, PointAt(start, end, t)))
            >= LengthSq(Sub(center, ClosestPoint(start, end, center)))
  {
    var v, w := Sub(end, start), Sub(center, start);
    var tc := SegmentFactor(start, end, center);
    assert Sub(center, PointAt(start, end, t)) == Sub(w, Scale(v, t));
    assert Sub(center, ClosestPoint(start, end, center)) == Sub(w, Scale(v, tc));
    DistanceAlongSegment(w, v, t);
    DistanceAlongSegment(w, v, tc);
    ClampedMinimiser(LengthSq(v), Dot(w, v), t);
  }
}

/**
 * Sphere/sphere contact and the two ray/sphere tests of Sphere.cpp. The ray tests
 * solve a*t^2 + b*t + c = 0 for the distance t along the ray.
 */
module Sphere {
  import opened Math3D

  /** Result of a contact test with its two in/out parameters. */
  datatype Contact = Contact(hit: bool, normal: Vec3, depth: real)

  /** The squared sum of the radii. */
  function SquaredRadi(radiusA: real, radiusB: real): real {
    (radiusA + radiusB) * (radiusA + radiusB)
  }

  /**
   * Sphere::intersectSphere. `normal` and `depth` are the caller's out-parameters:
   * both are left alone on a miss, and the normal also when the centres (nearly)
   * coincide.
   */
  function IntersectSphere(sqrt: real -> real, centerA: Vec3, radiusA: real, centerB: Vec3, radiusB: real,
                           normal: Vec3, depth: real): (res: Contact)
    requires IsSqrt(sqrt)
    ensures res.hit <==> LengthSq(Sub(centerB, centerA)) <= SquaredRadi(radiusA, radiusB)
    ensures !res.hit ==> res.normal == normal && res.depth == depth
    ensures res.hit ==> res.depth == sqrt(SquaredRadi(radiusA, radiusB)) - sqrt(LengthSq(Sub(centerB, centerA)))
    ensures res.hit && LengthSq(Sub(centerB, centerA)) > FltEpsilon ==> LengthSq(res.normal) == 1.0
    ensures res.hit && LengthSq(Sub(centerB, centerA)) <= FltEpsilon ==> res.normal == normal
  {
    var rel := Sub(centerB, centerA);
    var squaredDistance := LengthSq(rel);
    var squaredRadi := SquaredRadi(radiusA, radiusB);
    if squaredRadi < squaredDistance then Contact(false, normal, depth)
    else
      var newDepth := sqrt(squaredRadi) - sqrt(squaredDistance);
      if squaredDistance > FltEpsilon then
        var len := Length(sqrt, rel);
        NormalizedIsUnit(rel, len);
        Contact(true, Div(rel, len), newDepth)
      else Contact(true, normal, newDepth)
  }

  /**
   * On a hit the depth is the overlap (rA + rB) - |cB - cA|, never negative for
   * non-negative radii; the normal, when written, points from A to B.
   */
  lemma ContactDepthIsOverlap(sqrt: real -> real, centerA: Vec3, radiusA: real, centerB: Vec3, radiusB: real,
                              normal: Vec3, depth: real)
    requires IsSqrt(sqrt)
    requires radiusA + radiusB >= 0.0
    ensures var res := IntersectSphere(sqrt, centerA, radiusA, centerB, radiusB, normal, depth);
            res.hit ==> res.depth == (radiusA + radiusB) - Length(sqrt, Sub(centerB, centerA))
                        && res.depth >= 0.0
    ensures var res := IntersectSphere(sqrt, centerA, radiusA, centerB, radiusB, normal, depth);
            res.hit && LengthSq(Sub(centerB, centerA)) > FltEpsilon ==>
              Scale(res.normal, Length(sqrt, Sub(centerB, centerA))) == Sub(centerB, centerA)
  {
    var rel := Sub(centerB, centerA);
    var sum := radiusA + radiusB;
    SqrtOfSquare(sqrt, sum);
    assert SquaredRadi(radiusA, radiusB) == sum * sum;
    LengthSqNonNegative(rel);
    if LengthSq(rel) <= SquaredRadi(radiusA, radiusB) {
      SqrtMonotone(sqrt, LengthSq(rel), sum * sum);
      assert Length(sqrt, rel) == sqrt(LengthSq(rel));

    }
    if LengthSq(rel) > FltEpsilon {
      ScaleUndoesDiv(rel, Length(sqrt, rel));
    }
  }

  /** Contact is symmetric: swapping the spheres keeps hit and depth. */
  lemma ContactSymmetric(sqrt: real -> real, centerA: Vec3, radiusA: real, centerB: Vec3, radiusB: real,
                         normal: Vec3, depth: real)
    requires IsSqrt(sqrt)
    ensures var ab := IntersectSphere(sqrt, centerA, radiusA, centerB, radiusB, normal, depth);
            var ba := IntersectSphere(sqrt, centerB, radiusB, centerA, radiusA, normal, depth);
            ab.hit == ba.hit && ab.depth == ba.depth
  {
    var rel, ler := Sub(centerB, centerA), Sub(centerA, centerB);
    assert LengthSq(rel) == LengthSq(ler);
    assert SquaredRadi(radiusA, radiusB) == SquaredRadi(radiusB, radiusA);
  }

  // ----- ray tests -----

  /** The point at distance t along the ray lies on the sphere's surface. */
  predicate MeetsSurface(center: Vec3, radius: real, origin: Vec3, dir: Vec3, t: real) {
    LengthSq(Sub(Add(origin, Scale(dir, t)), center)) == radius * radius
  }

  function QuadA(dir: Vec3): real { LengthSq(dir) }
  function QuadB(center: Vec3, origin: Vec3, dir: Vec3): real { 2.0 * Dot(dir, Sub(origin, center)) }
  function QuadC(center: Vec3, radius: real, origin: Vec3): real {
    LengthSq(Sub(origin, center)) - radius * radius
  }

  function Quadratic(a: real, b: real, c: real, t: real): real { a * t * t + b * t + c }

  /** The expanded squared distance, minus r^2, written as the quadratic in t. */
  lemma QuadraticInOrder(a: real, half: real, rel: real, r2: real, t: real)
    ensures Quadratic(a, 2.0 * half, rel - r2, t) == rel + 2.0 * t * half + t * t * a - r2
  {
  }

  /** The ray meets the surface at t iff t solves the quadratic. */
  lemma MeetsSurfaceIffRoot(center: Vec3, radius: real, origin: Vec3, dir: Vec3, t: real)
    ensures MeetsSurface(center, radius, origin, dir, t)
            <==> Quadratic(QuadA(dir), QuadB(center, origin, dir), QuadC(center, radius, origin), t) == 0.0
  {
    var rel := Sub(origin, center);
    assert Sub(Add(origin, Scale(dir, t)), center) == Add(rel, Scale(dir, t));
    LengthSqAlong(rel, dir, t);
    QuadraticInOrder(LengthSq(dir), Dot(dir, rel), LengthSq(rel), radius * radius, t);
  }

  /**
   * The root selection shared by both ray tests (lines computing disc, q, t0, t1):
   * the nearest non-negative of the two roots, if any. When q = 0 (only possible
   * with c = 0) IEEE arithmetic makes t1 = c/q a NaN, every comparison with it false,
   * and the hit at t0 = 0 is reported; that case is spelled out.
   */
  function NearestRoot(sqrt: real -> real, a: real, b: real, c: real, distance: real): (res: RayResult)
    requires IsSqrt(sqrt) && a > 0.0
    ensures !res.hit ==> res.distance == distance
    ensures res.hit ==> res.distance >= 0.0
  {
    var disc := b * b - 4.0 * a * c;
    if disc < 0.0 then RayResult(false, distance)
    else
      var s := sqrt(disc);
      var q := if b < 0.0 then (-b - s) / 2.0 else (-b + s) / 2.0;
      if q == 0.0 then RayResult(true, 0.0)
      else
        var t0, t1 := q / a, c / q;
        var lo, hi := if t0 > t1 then t1 else t0, if t0 > t1 then t0 else t1;
        if hi < 0.0 then RayResult(false, distance)
        else RayResult(true, if lo < 0.0 then hi else lo)
  }

  /** With a negative discriminant the quadratic has no real root. */
  lemma NoRootWhenDiscNegative(a: real, b: real, c: real, t: real)
    requires a > 0.0 && b * b - 4.0 * a * c < 0.0
    ensures Quadratic(a, b, c, t) > 0.0
  {
    var f := Quadratic(a, b, c, t);
    assert 4.0 * a * f == (2.0 * a * t + b) * (2.0 * a * t + b) - (b * b - 4.0 * a * c);
    SquareNonNegative(2.0 * a * t + b);
    assert 4.0 * a * f > 0.0;
  }

  /** q is a root of x^2 + b*x + a*c for either choice of sign. */
  lemma QIsRoot(a: real, b: real, c: real, s: real, q: real)
    requires s * s == b * b - 4.0 * a * c
    requires q == (-b - s) / 2.0 || q == (-b + s) / 2.0
    ensures q * q + b * q + a * c == 0.0
  {
  }

  /** Vieta: with t0 = q/a and t1 = c/q the quadratic factors as a(t - t0)(t - t1). */
  lemma Factorisation(a: real, b: real, c: real, q: real, t0: real, t1: real, t: real)
    requires a > 0.0 && q != 0.0 && q * q + b * q + a * c == 0.0
    requires t0 * a == q && t1 * q == c
    ensures Quadratic(a, b, c, t) == a * (t - t0) * (t - t1)
  {
    assert a * t0 * t1 == c by {
      assert a * t0 * t1 == q * t1;
    }
    assert a * (t0 + t1) == -b by {
      assert (a * t0 + a * t1) * q == q * q + a * c by {
        assert a * t1 * q == a * c;
      }
      assert (a * t0 + a * t1) * q == -b * q;
    }
    assert a * (t - t0) * (t - t1) == a * t * t - a * (t0 + t1) * t + a * t0 * t1;
  }

  /** A product a(t - lo)(t - hi) with a != 0 vanishes only at lo and hi. */
  lemma ZeroProduct(a: real, lo: real, hi: real, t: real)
    requires a > 0.0 && a * (t - lo) * (t - hi) == 0.0
    ensures t == lo || t == hi
  {
  }

  /** With q a root of x^2 + b*x + a*c, the quadratic's roots are exactly q/a and c/q. */
  lemma TwoRoots(a: real, b: real, c: real, q: real)
    requires a > 0.0 && q != 0.0 && q * q + b * q + a * c == 0.0
    ensures forall t :: Quadratic(a, b, c, t) == 0.0 <==> (t == q / a || t == c / q)
  {
    var t0, t1 := q / a, c / q;
    assert t0 * a == q && t1 * q == c;
    forall t ensures Quadratic(a, b, c, t) == 0.0 <==> (t == t0 || t == t1) {
      Factorisation(a, b, c, q, t0, t1, t);
      if Quadratic(a, b, c, t) == 0.0 {
        ZeroProduct(a, t0, t1, t);
      }
    }
  }

  /**
   * NearestRoot reports a hit iff the quadratic has a non-negative root, and then
   * reports the smallest one.
   */
  lemma {:induction false} NearestRootIsSmallestNonNegativeRoot(sqrt: real -> real, a: real, b: real, c: real, distance: real)
    requires IsSqrt(sqrt) && a > 0.0
    ensures var res := NearestRoot(sqrt, a, b, c, distance);
            res.hit ==> Quadratic(a, b, c, res.distance) == 0.0
                        && forall t :: 0.0 <= t < res.distance ==> Quadratic(a, b, c, t) != 0.0
    ensures var res := NearestRoot(sqrt, a, b, c, distance);
            !res.hit ==> forall t :: 0.0 <= t ==> Quadratic(a, b, c, t) != 0.0
  {
    var res := NearestRoot(sqrt, a, b, c, distance);
    var disc := b * b - 4.0 * a * c;
    if disc < 0.0 {
      forall t | 0.0 <= t ensures Quadratic(a, b, c, t) != 0.0 {
        NoRootWhenDiscNegative(a, b, c, t);
      }
    } else {
      var s := sqrt(disc);
      var q := if b < 0.0 then (-b - s) / 2.0 else (-b + s) / 2.0;
      QIsRoot(a, b, c, s, q);
      if q == 0.0 {
        assert a * c == 0.0;
      } else {
        TwoRoots(a, b, c, q);
      }
    }
  }

  /**
   * Sphere::intersectCulledRayHull: the ray hits the sphere's surface ahead of its
   * origin. The direction must be non-zero (the source divides by its squared length).
   */
  function IntersectCulledRayHull(sqrt: real -> real, center: Vec3, radius: real, origin: Vec3, dir: Vec3,
                                  distance: real): (res: RayResult)
    requires IsSqrt(sqrt) && LengthSq(dir) > 0.0
    ensures !res.hit ==> res.distance == distance
    ensures res.hit ==> res.distance >= 0.0
  {
    NearestRoot(sqrt, QuadA(dir), QuadB(center, origin, dir), QuadC(center, radius, origin), distance)
  }

  /**
   * Sphere::intersectCulledRay: an origin strictly inside the sphere (c < 0) is a hit
   * at distance 0, decided before any root is computed; otherwise the hull test.
   */
  function IntersectCulledRay(sqrt: real -> real, center: Vec3, radius: real, origin: Vec3, dir: Vec3,
                              distance: real): (res: RayResult)
    requires IsSqrt(sqrt)
    requires QuadC(center, radius, origin) >= 0.0 ==> LengthSq(dir) > 0.0
    ensures QuadC(center, radius, origin) < 0.0 ==> res == RayResult(true, 0.0)
    ensures !res.hit ==> res.distance == distance
    ensures res.hit ==> res.distance >= 0.0
  {
    var c := QuadC(center, radius, origin);
    if c < 0.0 then RayResult(true, 0.0)
    else NearestRoot(sqrt, QuadA(dir), QuadB(center, origin, dir), c, distance)
  }

  /**
   * The hull test is exact: it reports a hit iff the ray meets the surface at some
   * t >= 0, and the reported distance is the nearest such t.
   */
  lemma HullHitIsNearestSurfacePoint(sqrt: real -> real, center: Vec3, radius: real, origin: Vec3, dir: Vec3,
                                     distance: real)
    requires IsSqrt(sqrt) && LengthSq(dir) > 0.0
    ensures var res := IntersectCulledRayHull(sqrt, center, radius, origin, dir, distance);
            res.hit ==> MeetsSurface(center, radius, origin, dir, res.distance)
                        && forall t :: 0.0 <= t < res.distance ==> !MeetsSurface(center, radius, origin, dir, t)
    ensures var res := IntersectCulledRayHull(sqrt, center, radius, origin, dir, distance);
            !res.hit ==> forall t :: 0.0 <= t ==> !MeetsSurface(center, radius, origin, dir, t)
  {
    var a, b, c := QuadA(dir), QuadB(center, origin, dir), QuadC(center, radius, origin);
    NearestRootIsSmallestNonNegativeRoot(sqrt, a, b, c, distance);
    forall t ensures MeetsSurface(center, radius, origin, dir, t) <==> Quadratic(a, b, c, t) == 0.0 {
      MeetsSurfaceIffRoot(center, radius, origin, dir, t);
    }
  }

  /** Outside or on the sphere the culled test agrees with the hull test. */
  lemma CulledAgreesWithHullOutside(sqrt: real -> real, center: Vec3, radius: real, origin: Vec3, dir: Vec3,
                                    distance: real)
    requires IsSqrt(sqrt) && LengthSq(dir) > 0.0
    requires QuadC(center, radius, origin) >= 0.0
    ensures IntersectCulledRay(sqrt, center, radius, origin, dir, distance)
            == IntersectCulledRayHull(sqrt, center, radius, origin, dir, distance)
  {
  }
}

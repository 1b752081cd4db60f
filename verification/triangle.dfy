/**
 * Ray/triangle test (Triangle::intersectRay, Moeller-Trumbore style) and its culled
 * variant that only accepts hits in front of the ray origin.
 */
module Triangle {
  import opened Math3D

  /** A triangle as a value: its corners p, q and r. */
  datatype Tri = Tri(p: Vec3, q: Vec3, r: Vec3)

  /**
   * Triangle::normal: the unit normal of the triangle's plane, orthogonal to both edges
   * leaving p.
   */
  function Normal(sqrt: real -> real, t: Tri): (n: Vec3)
    requires IsSqrt(sqrt)
    ensures Dot(n, Sub(t.q, t.p)) == 0.0 && Dot(n, Sub(t.r, t.p)) == 0.0
  {
    PlaneNormalOrthogonal(sqrt, t.p, t.q, t.r);
    PlaneNormal(sqrt, t.p, t.q, t.r)
  }

  /** det = edge1 . (direction x edge2); its sign tells the winding seen from the ray. */
  function Det(p: Vec3, q: Vec3, r: Vec3, dir: Vec3): real {
    Dot(Sub(q, p), Cross(dir, Sub(r, p)))
  }

  /** The unnormalised first barycentric coordinate u. */
  function U(p: Vec3, q: Vec3, r: Vec3, origin: Vec3, dir: Vec3): real {
    Dot(Sub(origin, p), Cross(dir, Sub(r, p)))
  }

  /** The unnormalised second barycentric coordinate v. */
  function V(p: Vec3, q: Vec3, origin: Vec3, dir: Vec3): real {
    Dot(dir, Cross(Sub(origin, p), Sub(q, p)))
  }

  /** det * distance: edge2 . (tVec x edge1). */
  function DistanceNumerator(p: Vec3, q: Vec3, r: Vec3, origin: Vec3): real {
    Dot(Sub(r, p), Cross(Sub(origin, p), Sub(q, p)))
  }

  /**
   * Triangle::intersectRay. `distance` is the caller's out-parameter: it is written
   * only on a hit, with a distance that may be negative (behind the origin).
   */
  function IntersectRay(p: Vec3, q: Vec3, r: Vec3, origin: Vec3, dir: Vec3, distance: real): (res: RayResult)
    ensures Det(p, q, r, dir) < FltEpsilon ==> !res.hit
    ensures res.hit ==> 0.0 <= U(p, q, r, origin, dir) <= Det(p, q, r, dir)
    ensures res.hit ==> 0.0 <= V(p, q, origin, dir)
                        && U(p, q, r, origin, dir) + V(p, q, origin, dir) <= Det(p, q, r, dir)
    ensures Det(p, q, r, dir) >= FltEpsilon && 0.0 <= U(p, q, r, origin, dir) <= Det(p, q, r, dir)
            && 0.0 <= V(p, q, origin, dir) && U(p, q, r, origin, dir) + V(p, q, origin, dir) <= Det(p, q, r, dir)
            ==> res.hit
    ensures res.hit ==> res.distance * Det(p, q, r, dir) == DistanceNumerator(p, q, r, origin)
    ensures !res.hit ==> res.distance == distance
  {
    var det := Det(p, q, r, dir);
    if det < FltEpsilon then RayResult(false, distance)
    else
      var u := U(p, q, r, origin, dir);
      if u < 0.0 || u > det then RayResult(false, distance)
      else
        var v := V(p, q, origin, dir);
        if v < 0.0 || u + v > det then RayResult(false, distance)
        else RayResult(true, DistanceNumerator(p, q, r, origin) / det)
  }

  /**
   * Triangle::intersectCulledRay: a hit of IntersectRay at a non-negative distance.
   * The distance goes through a local, so a hit behind the origin leaves the caller's
   * value untouched.
   */
  function IntersectCulledRay(p: Vec3, q: Vec3, r: Vec3, origin: Vec3, dir: Vec3, distance: real): (res: RayResult)
    ensures res.hit <==> IntersectRay(p, q, r, origin, dir, 0.0).hit && IntersectRay(p, q, r, origin, dir, 0.0).distance >= 0.0
    ensures res.hit ==> res.distance == IntersectRay(p, q, r, origin, dir, 0.0).distance && res.distance >= 0.0
    ensures !res.hit ==> res.distance == distance
  {
    var local := IntersectRay(p, q, r, origin, dir, 0.0);
    if local.hit && local.distance >= 0.0 then RayResult(true, local.distance)
    else RayResult(false, distance)
  }

  /** The point p + b1*(q-p) + b2*(r-p) of the triangle's plane. */
  function Barycentric(p: Vec3, q: Vec3, r: Vec3, b1: real, b2: real): Vec3 {
    Add(p, Add(Scale(Sub(q, p), b1), Scale(Sub(r, p), b2)))
  }

  /** Swapping the last two corners negates det (the scalar triple product is alternating). */
  lemma DetSwap(p: Vec3, q: Vec3, r: Vec3, dir: Vec3)
    ensures Det(p, r, q, dir) == -Det(p, q, r, dir)
  {
    var e1, e2 := Sub(q, p), Sub(r, p);
    assert Dot(e2, Cross(dir, e1)) == -Dot(e1, Cross(dir, e2));
  }

  /**
   * A triangle is hit in at most one winding: this is why callers test both corner
   * orders to get a two-sided test.
   */
  lemma AtMostOneWinding(p: Vec3, q: Vec3, r: Vec3, origin: Vec3, dir: Vec3, d1: real, d2: real)
    ensures !(IntersectRay(p, q, r, origin, dir, d1).hit && IntersectRay(p, r, q, origin, dir, d2).hit)
  {
    DetSwap(p, q, r, dir);
  }

  /** One component of Cramer's rule, written over scalars. */
  lemma CramerComponent(a1: real, a2: real, a3: real, b1: real, b2: real, b3: real,
                        d1: real, d2: real, d3: real, t1: real, t2: real, t3: real)
    ensures var p1, p2, p3 := d2 * b3 - d3 * b2, d3 * b1 - d1 * b3, d1 * b2 - d2 * b1;
            var q1, q2, q3 := t2 * a3 - t3 * a2, t3 * a1 - t1 * a3, t1 * a2 - t2 * a1;
            t1 * (a1 * p1 + a2 * p2 + a3 * p3) + d1 * (b1 * q1 + b2 * q2 + b3 * q3)
            == a1 * (t1 * p1 + t2 * p2 + t3 * p3) + b1 * (d1 * q1 + d2 * q2 + d3 * q3)
  {
  }

  /** The x component of the Cramer identity below. */
  lemma CramerX(e1: Vec3, e2: Vec3, d: Vec3, t: Vec3)
    ensures t.x * Dot(e1, Cross(d, e2)) + d.x * Dot(e2, Cross(t, e1))
            == e1.x * Dot(t, Cross(d, e2)) + e2.x * Dot(d, Cross(t, e1))
  {
    CramerComponent(e1.x, e1.y, e1.z, e2.x, e2.y, e2.z, d.x, d.y, d.z, t.x, t.y, t.z);
  }

  /** The y component of the Cramer identity below. */
  lemma CramerY(e1: Vec3, e2: Vec3, d: Vec3, t: Vec3)
    ensures t.y * Dot(e1, Cross(d, e2)) + d.y * Dot(e2, Cross(t, e1))
            == e1.y * Dot(t, Cross(d, e2)) + e2.y * Dot(d, Cross(t, e1))
  {
    CramerComponent(e1.y, e1.z, e1.x, e2.y, e2.z, e2.x, d.y, d.z, d.x, t.y, t.z, t.x);
  }

  /** The z component of the Cramer identity below. */
  lemma CramerZ(e1: Vec3, e2: Vec3, d: Vec3, t: Vec3)
    ensures t.z * Dot(e1, Cross(d, e2)) + d.z * Dot(e2, Cross(t, e1))
            == e1.z * Dot(t, Cross(d, e2)) + e2.z * Dot(d, Cross(t, e1))
  {
    CramerComponent(e1.z, e1.x, e1.y, e2.z, e2.x, e2.y, d.z, d.x, d.y, t.z, t.x, t.y);
  }

  /**
   * Cramer's rule behind the test: det * tVec + (det * t) * dir = u*edge1 + v*edge2,
   * where det * t is the distance numerator.
   */
  lemma CramerIdentity(e1: Vec3, e2: Vec3, d: Vec3, t: Vec3)
    ensures var pv := Cross(d, e2);
            var qv := Cross(t, e1);
            Add(Scale(t, Dot(e1, pv)), Scale(d, Dot(e2, qv)))
            == Add(Scale(e1, Dot(t, pv)), Scale(e2, Dot(d, qv)))
  {
    CramerX(e1, e2, d, t);
    CramerY(e1, e2, d, t);
    CramerZ(e1, e2, d, t);
  }

  /** Divides one component of the Cramer identity by det. */
  lemma ComponentFromScaled(tc: real, dc: real, t: real, e1c: real, e2c: real, b1: real, b2: real,
                            det: real, num: real, u: real, v: real)
    requires det > 0.0 && t * det == num && b1 * det == u && b2 * det == v
    requires tc * det + dc * num == e1c * u + e2c * v
    ensures tc + dc * t == e1c * b1 + e2c * b2
  {
    assert (tc + dc * t) * det == (e1c * b1 + e2c * b2) * det;
  }

  /** A linear combination of two vectors, component by component. */
  lemma Combination(a: Vec3, s: real, b: Vec3, r: real)
    ensures Add(Scale(a, s), Scale(b, r)) == Vec3(a.x * s + b.x * r, a.y * s + b.y * r, a.z * s + b.z * r)
    ensures s == 1.0 ==> Add(a, Scale(b, r)) == Vec3(a.x + b.x * r, a.y + b.y * r, a.z + b.z * r)
  {
  }

  /** ComponentFromScaled for all three components at once. */
  lemma FromScaled(tv: Vec3, dir: Vec3, t: real, e1: Vec3, e2: Vec3, b1: real, b2: real,
                   det: real, num: real, u: real, v: real)
    requires det > 0.0 && t * det == num && b1 * det == u && b2 * det == v
    requires Add(Scale(tv, det), Scale(dir, num)) == Add(Scale(e1, u), Scale(e2, v))
    ensures Add(tv, Scale(dir, t)) == Add(Scale(e1, b1), Scale(e2, b2))
  {
    Combination(tv, det, dir, num);
    Combination(e1, u, e2, v);
    Combination(tv, 1.0, dir, t);
    Combination(e1, b1, e2, b2);
    ComponentFromScaled(tv.x, dir.x, t, e1.x, e2.x, b1, b2, det, num, u, v);
    ComponentFromScaled(tv.y, dir.y, t, e1.y, e2.y, b1, b2, det, num, u, v);
    ComponentFromScaled(tv.z, dir.z, t, e1.z, e2.z, b1, b2, det, num, u, v);
  }

  /** u/det + v/det <= 1 when u + v <= det and det > 0. */
  lemma QuotientSumBound(u: real, v: real, det: real)
    requires det > 0.0 && u + v <= det
    ensures u / det + v / det <= 1.0
  {
    assert u / det + v / det == (u + v) / det;
  }

  /** From the scaled identity to the barycentric point, dividing by det > 0. */
  lemma BarycentricFromCramer(p: Vec3, origin: Vec3, dir: Vec3, e1: Vec3, e2: Vec3,
                              det: real, u: real, v: real, t: real, num: real)
    requires det > 0.0 && 0.0 <= u && 0.0 <= v && u + v <= det && t * det == num
    requires Add(Scale(Sub(origin, p), det), Scale(dir, num)) == Add(Scale(e1, u), Scale(e2, v))
    ensures 0.0 <= u / det && 0.0 <= v / det && u / det + v / det <= 1.0
    ensures Add(origin, Scale(dir, t)) == Add(p, Add(Scale(e1, u / det), Scale(e2, v / det)))
  {
    var b1, b2 := u / det, v / det;
    assert b1 * det == u && b2 * det == v;
    FromScaled(Sub(origin, p), dir, t, e1, e2, b1, b2, det, num, u, v);
    QuotientSumBound(u, v, det);
  }

  /**
   * Correctness of a reported hit: the point at the reported distance along the ray
   * is the point of the triangle with barycentric coordinates (u/det, v/det), which
   * are both non-negative and sum to at most 1.
   */
  lemma HitLiesOnTriangle(p: Vec3, q: Vec3, r: Vec3, origin: Vec3, dir: Vec3, distance: real)
    requires IntersectRay(p, q, r, origin, dir, distance).hit
    ensures var det := Det(p, q, r, dir);
            var b1 := U(p, q, r, origin, dir) / det;
            var b2 := V(p, q, origin, dir) / det;
            0.0 <= b1 && 0.0 <= b2 && b1 + b2 <= 1.0
            && Add(origin, Scale(dir, IntersectRay(p, q, r, origin, dir, distance).distance))
               == Barycentric(p, q, r, b1, b2)
  {
    var e1, e2, tv := Sub(q, p), Sub(r, p), Sub(origin, p);
    CramerIdentity(e1, e2, dir, tv);
    BarycentricFromCramer(p, origin, dir, e1, e2, Det(p, q, r, dir), U(p, q, r, origin, dir),
                          V(p, q, origin, dir), IntersectRay(p, q, r, origin, dir, distance).distance,
                          DistanceNumerator(p, q, r, origin));
  }
}

/**
 * Intersection: a ray against a triangle fan or a triangle strip read from a flat
 * position array (three reals per vertex), each vertex mapped by a model matrix.
 */
module Intersection {
  import opened Math3D
  import Triangle

  /** Vertex i of the position array: entries 3i, 3i+1, 3i+2. */
  function VertexAt(data: seq<real>, i: int): Vec3
    requires 0 <= i && 3 * i + 2 < |data|
  {
    Vec3(data[3 * i], data[3 * i + 1], data[3 * i + 2])
  }

  /** The array holds the vertices first .. max(last, first + 1). */
  predicate InRange(data: seq<real>, first: int, last: int) {
    0 <= first && 3 * first + 5 < |data| && 3 * last + 2 < |data|
  }

  /** Fan triangle i is (v[first], v[i-1], v[i]), tried in both windings with the two-sided test. */
  function FanTriangle(data: seq<real>, m: Mat4, first: int, i: int, origin: Vec3, dir: Vec3, distance: real): RayResult
    requires 0 <= first && first + 2 <= i && 3 * i + 2 < |data|
  {
    var a, b, c := MapPoint(m, VertexAt(data, first)), MapPoint(m, VertexAt(data, i - 1)), MapPoint(m, VertexAt(data, i));
    var r := Triangle.IntersectRay(a, b, c, origin, dir, distance);
    if r.hit then r else Triangle.IntersectRay(a, c, b, origin, dir, distance)
  }

  /** Strip triangle i is (v[i-2], v[i-1], v[i]), tried in both windings with the culled test. */
  function StripTriangle(data: seq<real>, m: Mat4, i: int, origin: Vec3, dir: Vec3, distance: real): RayResult
    requires 2 <= i && 3 * i + 2 < |data|
  {
    var a, b, c := MapPoint(m, VertexAt(data, i - 2)), MapPoint(m, VertexAt(data, i - 1)), MapPoint(m, VertexAt(data, i));
    var r := Triangle.IntersectCulledRay(a, b, c, origin, dir, distance);
    if r.hit then r else Triangle.IntersectCulledRay(b, a, c, origin, dir, distance)
  }

  /** Triangles i .. last of a sequence in index order: the first one that hits decides. */
  function FirstFrom(tri: int -> RayResult, i: int, last: int, distance: real): RayResult
    decreases last - i
  {
    if i > last then RayResult(false, distance)
    else if tri(i).hit then tri(i) else FirstFrom(tri, i + 1, last, distance)
  }

  /**
   * The first hit in index order, not the nearest: a hit comes from some triangle k that
   * hits while no earlier one does; a miss means no triangle hits and the distance is untouched.
   */
  lemma {:induction false} FirstFromIsFirstHit(tri: int -> RayResult, i: int, last: int, distance: real)
    ensures var res := FirstFrom(tri, i, last, distance);
            && (res.hit ==> exists k :: i <= k <= last && res == tri(k) && (forall j :: i <= j < k ==> !tri(j).hit))
            && (!res.hit ==> res.distance == distance && forall j :: i <= j <= last ==> !tri(j).hit)
    decreases last - i
  {
    if i <= last && !tri(i).hit {
      FirstFromIsFirstHit(tri, i + 1, last, distance);
      var res := FirstFrom(tri, i, last, distance);
      if res.hit {
        var k :| i + 1 <= k <= last && res == tri(k) && (forall j :: i + 1 <= j < k ==> !tri(j).hit);
        assert forall j :: i <= j < k ==> !tri(j).hit;
      }
    }
  }

  /** The fan's triangles by index; indices outside the array miss. */
  function FanTriangles(data: seq<real>, m: Mat4, first: int, origin: Vec3, dir: Vec3, distance: real): int -> RayResult {
    k => if 0 <= first && first + 2 <= k && 3 * k + 2 < |data| then FanTriangle(data, m, first, k, origin, dir, distance)
         else RayResult(false, distance)
  }

  /** The strip's triangles by index; indices outside the array miss. */
  function StripTriangles(data: seq<real>, m: Mat4, origin: Vec3, dir: Vec3, distance: real): int -> RayResult {
    k => if 2 <= k && 3 * k + 2 < |data| then StripTriangle(data, m, k, origin, dir, distance)
         else RayResult(false, distance)
  }

  /** Fan triangles i .. last in index order: the first one that hits decides. */
  function FanFrom(data: seq<real>, m: Mat4, first: int, i: int, last: int, origin: Vec3, dir: Vec3, distance: real): RayResult {
    FirstFrom(FanTriangles(data, m, first, origin, dir, distance), i, last, distance)
  }

  /** Strip triangles i .. last in index order: the first one that hits decides. */
  function StripFrom(data: seq<real>, m: Mat4, first: int, i: int, last: int, origin: Vec3, dir: Vec3, distance: real): RayResult {
    FirstFrom(StripTriangles(data, m, origin, dir, distance), i, last, distance)
  }

  /**
   * Intersection::intersectTriangleFan: the window keeps v[0] fixed and slides v[1], v[2].
   */
  method IntersectTriangleFan(data: array<real>, first: int, last: int, m: Mat4,
                              origin: Vec3, dir: Vec3, distance: real) returns (res: RayResult)
    requires InRange(data[..], first, last)
    ensures res == FanFrom(data[..], m, first, first + 2, last, origin, dir, distance)
  {
    var v0 := Vec3(data[first * 3], data[first * 3 + 1], data[first * 3 + 2]);
    var v1 := Vec3(data[first * 3 + 3], data[first * 3 + 4], data[first * 3 + 5]);
    var v2 := v1;
    var i := first + 2;
    while i <= last
      invariant first + 2 <= i && (i <= last + 1 || i == first + 2)
      invariant v0 == VertexAt(data[..], first)
      invariant i == first + 2 ==> v1 == VertexAt(data[..], i - 1)
      invariant i > first + 2 ==> v2 == VertexAt(data[..], i - 1)
      invariant FanFrom(data[..], m, first, first + 2, last, origin, dir, distance)
             == FanFrom(data[..], m, first, i, last, origin, dir, distance)
      decreases last - i
    {
      if i != first + 2 {
        v1 := v2;
      }
      v2 := Vec3(data[i * 3], data[i * 3 + 1], data[i * 3 + 2]);
      var r := Triangle.IntersectRay(MapPoint(m, v0), MapPoint(m, v1), MapPoint(m, v2), origin, dir, distance);
      if !r.hit {
        r := Triangle.IntersectRay(MapPoint(m, v0), MapPoint(m, v2), MapPoint(m, v1), origin, dir, distance);
      }
      assert r == FanTriangle(data[..], m, first, i, origin, dir, distance);
      if r.hit {
        return r;
      }
      i := i + 1;
    }
    return RayResult(false, distance);
  }

  /**
   * Intersection::intersectTriangleStrip: the window slides all three vertices.
   */
  method IntersectTriangleStrip(data: array<real>, first: int, last: int, m: Mat4,
                                origin: Vec3, dir: Vec3, distance: real) returns (res: RayResult)
    requires InRange(data[..], first, last)
    ensures res == StripFrom(data[..], m, first, first + 2, last, origin, dir, distance)
  {
    var v0 := Vec3(data[first * 3], data[first * 3 + 1], data[first * 3 + 2]);
    var v1 := Vec3(data[first * 3 + 3], data[first * 3 + 4], data[first * 3 + 5]);
    var v2 := v1;
    var i := first + 2;
    while i <= last
      invariant first + 2 <= i && (i <= last + 1 || i == first + 2)
      invariant i == first + 2 ==> v0 == VertexAt(data[..], i - 2) && v1 == VertexAt(data[..], i - 1)
      invariant i > first + 2 ==> v1 == VertexAt(data[..], i - 2) && v2 == VertexAt(data[..], i - 1)
      invariant StripFrom(data[..], m, first, first + 2, last, origin, dir, distance)
             == StripFrom(data[..], m, first, i, last, origin, dir, distance)
      decreases last - i
    {
      if i != first + 2 {
        v0 := v1;
        v1 := v2;
      }
      v2 := Vec3(data[i * 3], data[i * 3 + 1], data[i * 3 + 2]);
      var r := Triangle.IntersectCulledRay(MapPoint(m, v0), MapPoint(m, v1), MapPoint(m, v2), origin, dir, distance);
      if !r.hit {
        r := Triangle.IntersectCulledRay(MapPoint(m, v1), MapPoint(m, v0), MapPoint(m, v2), origin, dir, distance);
      }
      assert r == StripTriangle(data[..], m, i, origin, dir, distance);
      if r.hit {
        return r;
      }
      i := i + 1;
    }
    return RayResult(false, distance);
  }

  /**
   * The fan reports the first hitting triangle in index order, not the nearest: a hit
   * comes from some triangle k that hits while no earlier one does; a miss means no
   * triangle hits and the distance is untouched.
   */
  lemma FanIsFirstHit(data: seq<real>, m: Mat4, first: int, i: int, last: int,
                      origin: Vec3, dir: Vec3, distance: real)
    requires InRange(data, first, last) && first + 2 <= i
    ensures var res := FanFrom(data, m, first, i, last, origin, dir, distance);
            && (res.hit ==> exists k :: i <= k <= last && res == FanTriangle(data, m, first, k, origin, dir, distance)
                                       && (forall j :: i <= j < k ==> !FanTriangle(data, m, first, j, origin, dir, distance).hit))
            && (!res.hit ==> res.distance == distance
                             && forall j :: i <= j <= last ==> !FanTriangle(data, m, first, j, origin, dir, distance).hit)
  {
    var tri := FanTriangles(data, m, first, origin, dir, distance);
    FirstFromIsFirstHit(tri, i, last, distance);
    assert forall j :: i <= j <= last ==> tri(j) == FanTriangle(data, m, first, j, origin, dir, distance);
    var res := FirstFrom(tri, i, last, distance);
    if res.hit {
      var k :| i <= k <= last && res == tri(k) && (forall j :: i <= j < k ==> !tri(j).hit);
      assert res == FanTriangle(data, m, first, k, origin, dir, distance);
    }
  }

  /** The strip's counterpart of FanIsFirstHit. */
  lemma StripIsFirstHit(data: seq<real>, m: Mat4, first: int, i: int, last: int,
                        origin: Vec3, dir: Vec3, distance: real)
    requires InRange(data, first, last) && first + 2 <= i
    ensures var res := StripFrom(data, m, first, i, last, origin, dir, distance);
            && (res.hit ==> exists k :: i <= k <= last && res == StripTriangle(data, m, k, origin, dir, distance)
                                       && (forall j :: i <= j < k ==> !StripTriangle(data, m, j, origin, dir, distance).hit))
            && (!res.hit ==> res.distance == distance
                             && forall j :: i <= j <= last ==> !StripTriangle(data, m, j, origin, dir, distance).hit)
  {
    var tri := StripTriangles(data, m, origin, dir, distance);
    FirstFromIsFirstHit(tri, i, last, distance);
    assert forall j :: i <= j <= last ==> tri(j) == StripTriangle(data, m, j, origin, dir, distance);
    var res := FirstFrom(tri, i, last, distance);
    if res.hit {
      var k :| i <= k <= last && res == tri(k) && (forall j :: i <= j < k ==> !tri(j).hit);
      assert res == StripTriangle(data, m, k, origin, dir, distance);
    }
  }

  /** A strip hit is never behind the origin, because the strip uses the culled test. */
  lemma StripDistanceNonNegative(data: seq<real>, m: Mat4, first: int, i: int, last: int,
                                 origin: Vec3, dir: Vec3, distance: real)
    requires InRange(data, first, last) && first + 2 <= i
    ensures var res := StripFrom(data, m, first, i, last, origin, dir, distance);
            res.hit ==> res.distance >= 0.0
  {
    StripIsFirstHit(data, m, first, i, last, origin, dir, distance);
  }
}

/**
 * Terrain queries: the triangle, height and normal below a point, the two-triangle quad
 * test against a ray, the line walk that finds where a ray meets the ground, and the
 * index ranges drawn for a patch of the map.
 *
 * Grid cell (x, y) spans the map square [x, x + 1) x [y, y + 1) and is split along the
 * diagonal from (x, y + 1) to (x + 1, y) into a lower triangle (x, y), (x, y + 1), (x + 1, y)
 * and an upper triangle (x + 1, y + 1), (x + 1, y), (x, y + 1).
 */
module TerrainQuery {
  import opened Math3D
  import opened Wrappers
  import opened TerrainMap
  import Triangle
  import TerrainBuild

  /** A cell that has a row and a column of vertices after it. */
  predicate InCells(t: TerrainData, c: Point) {
    0 <= c.x < t.mapWidth - 1 && 0 <= c.y < t.mapHeight - 1
  }

  /** The triangle split rule: the fraction of the map point inside the cell sums to less than one. */
  predicate IsLower(c: Point, q: Vec2) {
    (q.x - c.x as real) + (q.y - c.y as real) < 1.0
  }

  /** The corners of the lower or the upper triangle of a cell, in grid coordinates. */
  function Corners(c: Point, lower: bool): (Point, Point, Point) {
    if lower then (c, Point(c.x, c.y + 1), Point(c.x + 1, c.y))
    else (Point(c.x + 1, c.y + 1), Point(c.x + 1, c.y), Point(c.x, c.y + 1))
  }

  /** The world triangle of a cell corner triple. */
  function CellTriangle(t: TerrainData, c: Point, lower: bool): (tri: Triangle.Tri)
    requires Valid(t) && InCells(t, c)
    ensures var (a, b, d) := Corners(c, lower);
            InGrid(t, a.x, a.y) && InGrid(t, b.x, b.y) && InGrid(t, d.x, d.y)
            && tri == Triangle.Tri(VertexPosition(t, a.x, a.y), VertexPosition(t, b.x, b.y), VertexPosition(t, d.x, d.y))
  {
    var (a, b, d) := Corners(c, lower);
    Triangle.Tri(VertexPosition(t, a.x, a.y), VertexPosition(t, b.x, b.y), VertexPosition(t, d.x, d.y))
  }

  /** The cell the source picks: the map point converted to QPoint, truncating toward zero. */
  function TruncCell(q: Vec2): Point {
    Point(Trunc(q.x), Trunc(q.y))
  }

  /** The cell that contains the map point. */
  function FloorCell(q: Vec2): (c: Point)
    ensures c.x as real <= q.x < c.x as real + 1.0 && c.y as real <= q.y < c.y as real + 1.0
  {
    Point(Floor(q.x), Floor(q.y))
  }

  /**
   * getTriangle(QPointF, Triangle &) as written: the cell is found by truncation, so a map
   * point with -1 < x < 0 (or -1 < y < 0) lands in cell 0 and is accepted.
   */
  function GetTriangleTruncating(t: TerrainData, q: Vec2): (r: Option<Triangle.Tri>)
    requires Valid(t)
    ensures r.Some? <==> InCells(t, TruncCell(q))
  {
    var c := TruncCell(q);
    if c.x >= t.mapWidth - 1 || c.y >= t.mapHeight - 1 || c.x < 0 || c.y < 0 then None
    else Some(CellTriangle(t, c, IsLower(c, q)))
  }

  /**
   * getTriangle(QPointF, Triangle &) as evidently intended: the triangle below the map
   * point, found in the cell that contains it; none outside the grid.
   */
  function GetTriangle(t: TerrainData, q: Vec2): (r: Option<Triangle.Tri>)
    requires Valid(t)
    ensures r.Some? <==> 0.0 <= q.x < (t.mapWidth - 1) as real && 0.0 <= q.y < (t.mapHeight - 1) as real
  {
    var c := FloorCell(q);
    if c.x >= t.mapWidth - 1 || c.y >= t.mapHeight - 1 || c.x < 0 || c.y < 0 then None
    else Some(CellTriangle(t, c, IsLower(c, q)))
  }

  /**
   * The triangle found contains the map point: the point is the combination of the
   * triangle's grid corners a + w1 (b - a) + w2 (d - a) with w1, w2 >= 0 and w1 + w2 <= 1.
   */
  lemma GetTriangleContainsPoint(t: TerrainData, q: Vec2)
    requires Valid(t) && GetTriangle(t, q).Some?
    ensures var c := FloorCell(q);
            var lower := IsLower(c, q);
            var (a, b, d) := Corners(c, lower);
            var fx, fy := q.x - c.x as real, q.y - c.y as real;
            var w1, w2 := if lower then fy else 1.0 - fy, if lower then fx else 1.0 - fx;
            GetTriangle(t, q) == Some(CellTriangle(t, c, lower))
            && 0.0 <= w1 && 0.0 <= w2 && w1 + w2 <= 1.0
            && q.x == a.x as real + w1 * (b.x - a.x) as real + w2 * (d.x - a.x) as real
            && q.y == a.y as real + w1 * (b.y - a.y) as real + w2 * (d.y - a.y) as real
  {
  }

  /** Truncation and flooring pick the same triangle for points with non-negative coordinates. */
  lemma TruncatingAgreesOnNonNegative(t: TerrainData, q: Vec2)
    requires Valid(t) && q.x >= 0.0 && q.y >= 0.0
    ensures GetTriangleTruncating(t, q) == GetTriangle(t, q)
  {
  }

  /**
   * The map point (-0.5, 0.5) lies outside the grid, yet the truncating version returns the
   * lower triangle of cell (0, 0) for it, and the point is not in that triangle: its weight
   * along the x edge is -0.5.
   */
  lemma TruncatingAcceptsPointOutsideGrid(t: TerrainData)
    requires Valid(t) && t.mapWidth >= 2 && t.mapHeight >= 2
    ensures var q := Vec2(-0.5, 0.5);
            GetTriangleTruncating(t, q) == Some(CellTriangle(t, Point(0, 0), true))
            && GetTriangle(t, q).None?
            && q.x - TruncCell(q).x as real < 0.0
  {
    var q := Vec2(-0.5, 0.5);
    assert Trunc(q.x) == 0 && Trunc(q.y) == 0;
  }

  /** The clamping of getTriangle(QPointF) and getLineQuadIntersection: into [0, W-2] x [0, H-2]. */
  function ClampCell(t: TerrainData, c: Point): (r: Point)
    requires t.mapWidth >= 2 && t.mapHeight >= 2
    ensures InCells(t, r)
    ensures InCells(t, c) ==> r == c
    ensures c.x < 0 ==> r.x == 0
    ensures c.x >= t.mapWidth - 1 ==> r.x == t.mapWidth - 2
    ensures c.y < 0 ==> r.y == 0
    ensures c.y >= t.mapHeight - 1 ==> r.y == t.mapHeight - 2
  {
    var x := if c.x >= t.mapWidth - 1 then t.mapWidth - 2 else c.x;
    var y := if c.y >= t.mapHeight - 1 then t.mapHeight - 2 else c.y;
    Point(if x < 0 then 0 else x, if y < 0 then 0 else y)
  }

  /**
   * getTriangle(QPointF): the nearest triangle. The truncated cell is clamped into the grid
   * and the split rule uses the fraction relative to the clamped cell.
   */
  function GetTriangleClamped(t: TerrainData, q: Vec2): (tri: Triangle.Tri)
    requires Valid(t) && t.mapWidth >= 2 && t.mapHeight >= 2
    ensures var c := ClampCell(t, TruncCell(q));
            tri == CellTriangle(t, c, IsLower(c, q))
  {
    var c := ClampCell(t, TruncCell(q));
    CellTriangle(t, c, IsLower(c, q))
  }

  /** Inside the grid the nearest triangle is the triangle below the point. */
  lemma ClampedAgreesInside(t: TerrainData, q: Vec2)
    requires Valid(t) && t.mapWidth >= 2 && t.mapHeight >= 2
    requires GetTriangle(t, q).Some?
    ensures GetTriangle(t, q) == Some(GetTriangleClamped(t, q))
  {
    TruncatingAgreesOnNonNegative(t, q);
  }

  /**
   * The height formula of getHeight: the y at which the vertical line through (x, z) meets
   * the plane through p with normal n. The source divides by -n.y; a vertical plane
   * (n.y = 0) has no such point and gives none here.
   */
  function PlaneHeight(n: Vec3, p: Vec3, pos: Vec2): (h: Option<real>)
    ensures h.Some? <==> n.y != 0.0
    ensures h.Some? ==> Dot(n, Sub(Vec3(pos.x, h.value, pos.y), p)) == 0.0
  {
    if n.y == 0.0 then None
    else
      var v := ((n.x * (pos.x - p.x)) + (n.z * (pos.y - p.z))) / (-n.y) + p.y;
      assert n.y * (v - p.y) == -((n.x * (pos.x - p.x)) + (n.z * (pos.y - p.z)));
      Some(v)
  }

  /** The height is the only point of the plane on that vertical line. */
  lemma PlaneHeightUnique(n: Vec3, p: Vec3, pos: Vec2, h: real)
    requires n.y != 0.0
    requires Dot(n, Sub(Vec3(pos.x, h, pos.y), p)) == 0.0
    ensures PlaneHeight(n, p, pos) == Some(h)
  {
    var v := PlaneHeight(n, p, pos).value;
    assert Dot(n, Sub(Vec3(pos.x, v, pos.y), p)) - Dot(n, Sub(Vec3(pos.x, h, pos.y), p)) == n.y * (v - h);
    assert v - h == (n.y * (v - h)) / n.y;
  }

  /**
   * getHeight(QPointF, float &): the world point is mapped to find the triangle below it with
   * the truncating lookup the source uses; the height is then taken on that triangle's plane in
   * world coordinates.
   */
  function GetHeight(sqrt: real -> real, t: TerrainData, pos: Vec2): (h: Option<real>)
    requires IsSqrt(sqrt) && Valid(t)
    ensures h.Some? ==> GetTriangleTruncating(t, ToMapF(t, pos)).Some?
    ensures (GetTriangleTruncating(t, ToMapF(t, pos)).Some?
             && Triangle.Normal(sqrt, GetTriangleTruncating(t, ToMapF(t, pos)).value).y != 0.0) ==> h.Some?
    ensures h.Some? ==>
              var tri := GetTriangleTruncating(t, ToMapF(t, pos)).value;
              var point := Vec3(pos.x, h.value, pos.y);
              var n := Triangle.Normal(sqrt, tri);
              Dot(n, Sub(point, tri.p)) == 0.0 && Dot(n, Sub(tri.q, tri.p)) == 0.0 && Dot(n, Sub(tri.r, tri.p)) == 0.0
  {
    match GetTriangleTruncating(t, ToMapF(t, pos))
    case None => None
    case Some(tri) => PlaneHeight(Triangle.Normal(sqrt, tri), tri.p, pos)
  }

  /**
   * The vertices lie on a regular grid in the ground plane: one column further on adds sx
   * to x and keeps z, one row further on adds sz to z and keeps x, and neither step is zero.
   */
  predicate RegularGrid(t: TerrainData, sx: real, sz: real)
    requires Valid(t)
  {
    sx != 0.0 && sz != 0.0
    && (forall x, y :: 0 <= x < t.mapWidth - 1 && 0 <= y < t.mapHeight ==>
          VertexPosition(t, x + 1, y).x == VertexPosition(t, x, y).x + sx
          && VertexPosition(t, x + 1, y).z == VertexPosition(t, x, y).z)
    && (forall x, y :: 0 <= x < t.mapWidth && 0 <= y < t.mapHeight - 1 ==>
          VertexPosition(t, x, y + 1).z == VertexPosition(t, x, y).z + sz
          && VertexPosition(t, x, y + 1).x == VertexPosition(t, x, y).x)
  }

  /** A vector with a non-zero y keeps a non-zero y when normalized. */
  lemma NormalizedKeepsY(sqrt: real -> real, v: Vec3)
    requires IsSqrt(sqrt) && v.y != 0.0
    ensures Normalized(sqrt, v).y != 0.0
  {
    LengthSqWithY(v);
    var n := Normalized(sqrt, v);
    assert Scale(n, Length(sqrt, v)) == v;
    assert n.y * Length(sqrt, v) == v.y;
  }

  /**
   * On a regular grid neither triangle of a cell stands vertical: the cross product of its
   * two edges has y = sx * sz, so its normal has a non-zero y and getHeight's division is safe.
   */
  lemma CellNormalNotHorizontal(sqrt: real -> real, t: TerrainData, c: Point, lower: bool, sx: real, sz: real)
    requires IsSqrt(sqrt) && Valid(t) && InCells(t, c) && RegularGrid(t, sx, sz)
    ensures Triangle.Normal(sqrt, CellTriangle(t, c, lower)).y != 0.0
  {
    var tri := CellTriangle(t, c, lower);
    var e1, e2 := Sub(tri.q, tri.p), Sub(tri.r, tri.p);
    if lower {
      assert e1.x == 0.0 && e1.z == sz && e2.x == sx && e2.z == 0.0;
    } else {
      assert e1.x == 0.0 && e1.z == -sz && e2.x == -sx && e2.z == 0.0;
    }
    assert Cross(e1, e2).y == sx * sz != 0.0;
    NormalizedKeepsY(sqrt, Cross(e1, e2));
  }

  /** On a regular grid getHeight answers exactly where getTriangle finds a triangle. */
  lemma GetHeightOnRegularGrid(sqrt: real -> real, t: TerrainData, pos: Vec2, sx: real, sz: real)
    requires IsSqrt(sqrt) && Valid(t) && RegularGrid(t, sx, sz)
    ensures GetHeight(sqrt, t, pos).Some? <==> GetTriangleTruncating(t, ToMapF(t, pos)).Some?
  {
    var q := ToMapF(t, pos);
    var c := TruncCell(q);
    if InCells(t, c) {
      CellNormalNotHorizontal(sqrt, t, c, IsLower(c, q), sx, sz);
    }
  }

  /** Vertex (x, y) of a built terrain holds grid entry (x, y) of the constructor's positions. */
  lemma BuiltVertexPosition(t: TerrainData, normal: (Vec3, Vec3, Vec3) -> Vec3, ps: seq<Vec3>, x: int, y: int)
    requires Valid(t) && |ps| == t.mapWidth * t.mapHeight && InGrid(t, x, y)
    requires t.vertices == TerrainBuild.TerrainVertices(normal, ps, t.mapWidth, t.mapHeight)
    ensures VertexPosition(t, x, y) == TerrainBuild.At(ps, t.mapWidth, t.mapHeight, x, y)
  {
    CellIndex(t.mapWidth, t.mapHeight, x, y);
  }

  /** Vertices built from an evenly stepped grid of positions lie on a regular grid. */
  lemma StepsGiveRegularGrid(t: TerrainData, normal: (Vec3, Vec3, Vec3) -> Vec3, ps: seq<Vec3>, sx: real, sz: real)
    requires Valid(t) && |ps| == t.mapWidth * t.mapHeight && sx != 0.0 && sz != 0.0
    requires t.vertices == TerrainBuild.TerrainVertices(normal, ps, t.mapWidth, t.mapHeight)
    requires TerrainBuild.GridSteps(ps, t.mapWidth, t.mapHeight, sx, sz)
    ensures RegularGrid(t, sx, sz)
  {
    forall x, y | InGrid(t, x, y)
      ensures VertexPosition(t, x, y) == TerrainBuild.At(ps, t.mapWidth, t.mapHeight, x, y)
    {
      BuiltVertexPosition(t, normal, ps, x, y);
    }
  }

  /** A non-zero extent split into n > 0 cells gives a non-zero cell size. */
  lemma CellSizeNonZero(extent: real, n: int)
    requires extent != 0.0 && n > 0
    ensures extent / n as real != 0.0
  {
    assert extent / n as real * n as real == extent;
  }

  /**
   * The Terrain constructor lays its vertices on the regular grid of cell size
   * (size.x / W, size.z / H), whatever the heightmap and the number of smoothing passes.
   */
  lemma BuiltTerrainIsRegular(sqrt: real -> real, reds: seq<int>, passes: int, t: TerrainData)
    requires IsSqrt(sqrt) && Valid(t) && |reds| == t.mapWidth * t.mapHeight
    requires t.size.x != 0.0 && t.size.z != 0.0
    requires t.vertices == TerrainBuild.TerrainVertices(TerrainBuild.QNormal(sqrt),
               TerrainBuild.SmoothedTimes(TerrainBuild.RawGrid(reds, t.size, t.offset, t.mapWidth, t.mapHeight, t.mapWidth * t.mapHeight),
                                          t.mapWidth, t.mapHeight, passes), t.mapWidth, t.mapHeight)
    ensures RegularGrid(t, t.size.x / t.mapWidth as real, t.size.z / t.mapHeight as real)
  {
    var W, H := t.mapWidth, t.mapHeight;
    var ps := TerrainBuild.SmoothedTimes(TerrainBuild.RawGrid(reds, t.size, t.offset, W, H, W * H), W, H, passes);
    TerrainBuild.SmoothedRawSteps(reds, t.size, t.offset, W, H, passes);
    CellSizeNonZero(t.size.x, W);
    CellSizeNonZero(t.size.z, H);
    StepsGiveRegularGrid(t, TerrainBuild.QNormal(sqrt), ps, t.size.x / W as real, t.size.z / H as real);
  }

  /**
   * On a terrain the constructor built, getHeight answers exactly where getTriangle finds a
   * triangle: the source's division by the normal's y never meets a zero.
   */
  lemma BuiltTerrainHasHeights(sqrt: real -> real, reds: seq<int>, passes: int, t: TerrainData, pos: Vec2)
    requires IsSqrt(sqrt) && Valid(t) && |reds| == t.mapWidth * t.mapHeight
    requires t.size.x != 0.0 && t.size.z != 0.0
    requires t.vertices == TerrainBuild.TerrainVertices(TerrainBuild.QNormal(sqrt),
               TerrainBuild.SmoothedTimes(TerrainBuild.RawGrid(reds, t.size, t.offset, t.mapWidth, t.mapHeight, t.mapWidth * t.mapHeight),
                                          t.mapWidth, t.mapHeight, passes), t.mapWidth, t.mapHeight)
    ensures GetHeight(sqrt, t, pos).Some? <==> GetTriangleTruncating(t, ToMapF(t, pos)).Some?
  {
    BuiltTerrainIsRegular(sqrt, reds, passes, t);
    GetHeightOnRegularGrid(sqrt, t, pos, t.size.x / t.mapWidth as real, t.size.z / t.mapHeight as real);
  }

  /** getHeight(QPointF): the height on the plane of the nearest triangle. */
  function GetHeightClamped(sqrt: real -> real, t: TerrainData, pos: Vec2): (h: Option<real>)
    requires IsSqrt(sqrt) && Valid(t) && t.mapWidth >= 2 && t.mapHeight >= 2
    ensures h.Some? ==>
              var tri := GetTriangleClamped(t, ToMapF(t, pos));
              Dot(Triangle.Normal(sqrt, tri), Sub(Vec3(pos.x, h.value, pos.y), tri.p)) == 0.0
  {
    var tri := GetTriangleClamped(t, ToMapF(t, pos));
    PlaneHeight(Triangle.Normal(sqrt, tri), tri.p, pos)
  }

  /** Wherever the bool getHeight answers, both getHeight variants give the same height. */
  lemma HeightVariantsAgreeInside(sqrt: real -> real, t: TerrainData, pos: Vec2)
    requires IsSqrt(sqrt) && Valid(t) && t.mapWidth >= 2 && t.mapHeight >= 2
    requires GetTriangleTruncating(t, ToMapF(t, pos)).Some?
    ensures GetHeight(sqrt, t, pos) == GetHeightClamped(sqrt, t, pos)
  {
    var q := ToMapF(t, pos);
    assert ClampCell(t, TruncCell(q)) == TruncCell(q);
  }

  /** getNormal(QPointF, QVector3D &): the normal of the triangle the truncating lookup finds, if any. */
  function GetNormal(sqrt: real -> real, t: TerrainData, pos: Vec2): (n: Option<Vec3>)
    requires IsSqrt(sqrt) && Valid(t)
    ensures n.Some? <==> GetTriangleTruncating(t, ToMapF(t, pos)).Some?
    ensures n.Some? ==>
              var tri := GetTriangleTruncating(t, ToMapF(t, pos)).value;
              Dot(n.value, Sub(tri.q, tri.p)) == 0.0 && Dot(n.value, Sub(tri.r, tri.p)) == 0.0
  {
    match GetTriangleTruncating(t, ToMapF(t, pos))
    case None => None
    case Some(tri) => Some(Triangle.Normal(sqrt, tri))
  }

  /** getNormal(QPointF): the normal of the nearest triangle. */
  function GetNormalClamped(sqrt: real -> real, t: TerrainData, pos: Vec2): (n: Vec3)
    requires IsSqrt(sqrt) && Valid(t) && t.mapWidth >= 2 && t.mapHeight >= 2
    ensures var tri := GetTriangleClamped(t, ToMapF(t, pos));
            Dot(n, Sub(tri.q, tri.p)) == 0.0 && Dot(n, Sub(tri.r, tri.p)) == 0.0
  {
    Triangle.Normal(sqrt, GetTriangleClamped(t, ToMapF(t, pos)))
  }

  /** getHeightAboveGround(QVector3D, float &): the point's y minus the ground height below it. */
  function GetHeightAboveGround(sqrt: real -> real, t: TerrainData, p: Vec3): (r: Option<real>)
    requires IsSqrt(sqrt) && Valid(t)
    ensures r.Some? <==> GetHeight(sqrt, t, Vec2(p.x, p.z)).Some?
    ensures r.Some? ==> p.y == GetHeight(sqrt, t, Vec2(p.x, p.z)).value + r.value
  {
    match GetHeight(sqrt, t, Vec2(p.x, p.z))
    case None => None
    case Some(h) => Some(p.y - h)
  }

  /** getHeightAboveGround(QVector3D): the same over the nearest triangle. */
  function GetHeightAboveGroundClamped(sqrt: real -> real, t: TerrainData, p: Vec3): (r: Option<real>)
    requires IsSqrt(sqrt) && Valid(t) && t.mapWidth >= 2 && t.mapHeight >= 2
    ensures r.Some? <==> GetHeightClamped(sqrt, t, Vec2(p.x, p.z)).Some?
    ensures r.Some? ==> p.y == GetHeightClamped(sqrt, t, Vec2(p.x, p.z)).value + r.value
  {
    match GetHeightClamped(sqrt, t, Vec2(p.x, p.z))
    case None => None
    case Some(h) => Some(p.y - h)
  }

  /** A ray hit that is in front of the origin and nearer than `length`. */
  predicate Accepts(res: RayResult, length: real) {
    res.hit && res.distance < length && res.distance > 0.0
  }

  /**
   * getLineQuadIntersection: the quad's cell is clamped into the grid; its lower triangle
   * and then its upper triangle are checked, and a hit replaces `length` only when it lies
   * strictly between 0 and `length`.
   */
  function QuadIntersection(t: TerrainData, origin: Vec3, dir: Vec3, quad: Point, length: real): (res: RayResult)
    requires Valid(t) && t.mapWidth >= 2 && t.mapHeight >= 2
    ensures res.hit ==> 0.0 < res.distance < length
    ensures !res.hit ==> res.distance == length
    ensures var c := ClampCell(t, quad);
            var lo, up := CellTriangle(t, c, true), CellTriangle(t, c, false);
            res.hit <==> Accepts(Triangle.IntersectRay(lo.p, lo.q, lo.r, origin, dir, 0.0), length)
                         || Accepts(Triangle.IntersectRay(up.p, up.q, up.r, origin, dir, 0.0), length)
  {
    var c := ClampCell(t, quad);
    var lo := CellTriangle(t, c, true);
    var r1 := Triangle.IntersectRay(lo.p, lo.q, lo.r, origin, dir, 0.0);
    if Accepts(r1, length) then r1
    else
      var up := CellTriangle(t, c, false);
      var r2 := Triangle.IntersectRay(up.p, up.q, up.r, origin, dir, 0.0);
      if Accepts(r2, length) then r2 else RayResult(false, length)
  }

  /**
   * A quad hit is a point of the ground: the point at the new length along the ray lies on
   * one of the quad's two triangles, with barycentric weights in the triangle.
   */
  lemma QuadHitLiesOnQuad(t: TerrainData, origin: Vec3, dir: Vec3, quad: Point, length: real)
    requires Valid(t) && t.mapWidth >= 2 && t.mapHeight >= 2
    requires QuadIntersection(t, origin, dir, quad, length).hit
    ensures exists lower: bool, b1: real, b2: real ::
              var tri := CellTriangle(t, ClampCell(t, quad), lower);
              0.0 <= b1 && 0.0 <= b2 && b1 + b2 <= 1.0
              && Add(origin, Scale(dir, QuadIntersection(t, origin, dir, quad, length).distance))
                 == Triangle.Barycentric(tri.p, tri.q, tri.r, b1, b2)
  {
    var c := ClampCell(t, quad);
    var lo := CellTriangle(t, c, true);
    var lower := Accepts(Triangle.IntersectRay(lo.p, lo.q, lo.r, origin, dir, 0.0), length);
    var tri := CellTriangle(t, c, lower);
    Triangle.HitLiesOnTriangle(tri.p, tri.q, tri.r, origin, dir, 0.0);
    var det := Triangle.Det(tri.p, tri.q, tri.r, dir);
    var b1 := Triangle.U(tri.p, tri.q, tri.r, origin, dir) / det;
    var b2 := Triangle.V(tri.p, tri.q, origin, dir) / det;
    assert 0.0 <= b1 && 0.0 <= b2 && b1 + b2 <= 1.0;
  }

  /**
   * One step of intersectLine: the quads at c, c + o and c - o are checked in turn, each
   * with the length left by the one before (all three run, since the results are or-ed).
   */
  function CellTest(t: TerrainData, origin: Vec3, dir: Vec3, c: Point, o: Point, length: real): (res: RayResult)
    requires Valid(t) && t.mapWidth >= 2 && t.mapHeight >= 2
    ensures res.hit ==> 0.0 < res.distance < length
    ensures !res.hit ==> res.distance == length
  {
    var r1 := QuadIntersection(t, origin, dir, c, length);
    var r2 := QuadIntersection(t, origin, dir, Point(c.x + o.x, c.y + o.y), r1.distance);
    var r3 := QuadIntersection(t, origin, dir, Point(c.x - o.x, c.y - o.y), r2.distance);
    RayResult(r1.hit || r2.hit || r3.hit, r3.distance)
  }

  function Abs(x: int): (r: int)
    ensures r >= 0 && (r == x || r == -x)
  {
    if x < 0 then -x else x
  }

  /** The side quads checked at each step: beside the line along the axis it moves less on. */
  function SideOffset(start: Point, target: Point): (o: Point)
    ensures o == Point(1, 0) || o == Point(0, 1)
  {
    if Abs(target.x - start.x) < Abs(target.y - start.y) then Point(1, 0) else Point(0, 1)
  }

  /** Consecutive cells of the walk are distinct neighbours (8-connected). */
  predicate KingStep(a: Point, b: Point) {
    a != b && -1 <= b.x - a.x <= 1 && -1 <= b.y - a.y <= 1
  }

  /** If the walk is at x = target and y is not yet, the error term rules out another x step. */
  lemma NoOvershootX(dx: int, dy: int, j: int)
    requires dx >= 0 && 0 <= j < dy
    ensures 2 * (dx * (j + 1) - dy * (dx + 1)) <= -dy
  {
    assert dx * dy - dx * (j + 1) == dx * (dy - j - 1);
    NonNegativeIntProduct(dy - j - 1, dx);
    assert dy * (dx + 1) == dx * dy + dy;
  }

  /** If the walk is at y = target and x is not yet, the error term rules out another y step. */
  lemma NoOvershootY(dx: int, dy: int, i: int)
    requires dy >= 0 && 0 <= i < dx
    ensures 2 * (dx * (dy + 1) - dy * (i + 1)) >= dx
  {
    assert dx * dy - dy * (i + 1) == dy * (dx - i - 1);
    NonNegativeIntProduct(dx - i - 1, dy);
    assert dx * (dy + 1) == dx * dy + dx;
  }

  /**
   * The step rule of the line walk: with p.x steps taken along x and p.y along y, the error is
   * dx (p.y + 1) - dy (p.x + 1); x advances when twice the error exceeds -dy, and y when it is
   * below dx.
   */
  function BresenhamNext(dx: int, dy: int, p: Point): Point {
    var e2 := 2 * (dx * (p.y + 1) - dy * (p.x + 1));
    Point(if e2 > -dy then p.x + 1 else p.x, if e2 < dx then p.y + 1 else p.y)
  }

  /**
   * The offset p = (i, j) lies within half a cell of the segment from (0, 0) to (dx, dy),
   * measured along the axis the segment moves less on: |dx j - dy i| <= max(dx, dy) / 2.
   */
  predicate NearSegment(dx: int, dy: int, p: Point) {
    -Max(dx, dy) <= 2 * (dx * p.y - dy * p.x) <= Max(dx, dy)
  }

  /** The step rule keeps the walk within half a cell of the segment. */
  lemma BresenhamStaysNear(dx: int, dy: int, p: Point)
    requires dx >= 0 && dy >= 0 && NearSegment(dx, dy, p)
    ensures NearSegment(dx, dy, BresenhamNext(dx, dy, p))
  {
    var d := dx * p.y - dy * p.x;
    MulSucc(dx, p.y);
    MulSucc(dy, p.x);
    var e2 := 2 * (dx * (p.y + 1) - dy * (p.x + 1));
    assert e2 == 2 * d + 2 * dx - 2 * dy;
    var q := BresenhamNext(dx, dy, p);
    assert dx * q.y == dx * p.y + (if e2 < dx then dx else 0);
    assert dy * q.x == dy * p.x + (if e2 > -dy then dy else 0);
  }

  /** How far a cell is from `start` along each axis. */
  function Offset(start: Point, c: Point): Point {
    Point(Abs(c.x - start.x), Abs(c.y - start.y))
  }

  /** c lies between a and b, inclusive, in either order. */
  predicate InSpan(a: int, b: int, c: int) {
    a <= c <= b || b <= c <= a
  }

  /** A cell of the box spanned by start and target is fixed by its offset from start. */
  lemma OffsetDetermines(start: Point, target: Point, c1: Point, c2: Point)
    requires InSpan(start.x, target.x, c1.x) && InSpan(start.y, target.y, c1.y)
    requires InSpan(start.x, target.x, c2.x) && InSpan(start.y, target.y, c2.y)
    requires Offset(start, c1) == Offset(start, c2)
    ensures c1 == c2
  {
  }

  /**
   * cells is (a prefix of) the Bresenham walk from start to target: it starts at start, every
   * cell lies in the box spanned by start and target, and each next cell's offset is the step
   * rule applied to the previous one's.
   */
  predicate BresenhamWalk(start: Point, target: Point, cells: seq<Point>) {
    var dx, dy := Abs(target.x - start.x), Abs(target.y - start.y);
    && |cells| >= 1 && cells[0] == start
    && (forall k :: 0 <= k < |cells| ==> InSpan(start.x, target.x, cells[k].x) && InSpan(start.y, target.y, cells[k].y))
    && (forall k :: 0 <= k < |cells| - 1 ==> Offset(start, cells[k + 1]) == BresenhamNext(dx, dy, Offset(start, cells[k])))
  }

  /** Every cell of a walk lies within half a cell of the segment from start to target. */
  lemma {:induction false} BresenhamWalkNearSegment(start: Point, target: Point, cells: seq<Point>)
    requires BresenhamWalk(start, target, cells)
    ensures forall k :: 0 <= k < |cells| ==>
      NearSegment(Abs(target.x - start.x), Abs(target.y - start.y), Offset(start, cells[k]))
    decreases |cells|
  {
    var dx, dy := Abs(target.x - start.x), Abs(target.y - start.y);
    if |cells| > 1 {
      var front := cells[..|cells| - 1];
      assert BresenhamWalk(start, target, front);
      BresenhamWalkNearSegment(start, target, front);
      BresenhamStaysNear(dx, dy, Offset(start, cells[|cells| - 2]));
    }
  }

  /** One more cell, by the step rule and inside the box, extends a walk. */
  lemma BresenhamWalkAppend(start: Point, target: Point, cells: seq<Point>, c: Point)
    requires BresenhamWalk(start, target, cells)
    requires InSpan(start.x, target.x, c.x) && InSpan(start.y, target.y, c.y)
    requires Offset(start, c) == BresenhamNext(Abs(target.x - start.x), Abs(target.y - start.y), Offset(start, cells[|cells| - 1]))
    ensures BresenhamWalk(start, target, cells + [c])
  {
    var cs := cells + [c];
    assert forall k :: 0 <= k < |cells| ==> cs[k] == cells[k];
  }

  /** The cell i steps along x and j along y from start towards target: its offset, and inside the box. */
  lemma WalkedCell(start: Point, target: Point, sx: int, sy: int, i: int, j: int, x: int, y: int)
    requires sx == (if start.x < target.x then 1 else -1) && sy == (if start.y < target.y then 1 else -1)
    requires 0 <= i <= Abs(target.x - start.x) && 0 <= j <= Abs(target.y - start.y)
    requires x == (if sx == 1 then start.x + i else start.x - i)
    requires y == (if sy == 1 then start.y + j else start.y - j)
    ensures Offset(start, Point(x, y)) == Point(i, j)
    ensures InSpan(start.x, target.x, x) && InSpan(start.y, target.y, y)
  {
  }

  /** The walk is determined by its ends: of two walks between the same cells one extends the other. */
  lemma {:induction false} BresenhamWalkUnique(start: Point, target: Point, a: seq<Point>, b: seq<Point>)
    requires BresenhamWalk(start, target, a) && BresenhamWalk(start, target, b) && |a| <= |b|
    ensures a == b[..|a|]
    decreases |a|
  {
    if |a| > 1 {
      var n := |a| - 1;
      assert BresenhamWalk(start, target, a[..n]);
      BresenhamWalkUnique(start, target, a[..n], b);
      assert a[n - 1] == b[n - 1];
      OffsetDetermines(start, target, a[n], b[n]);
      assert a == a[..n] + [a[n]];
      assert b[..|a|] == b[..n] + [b[n]];
    }
  }

  /**
   * One step of the line walk, taken when the walk is not yet at the target: the error
   * term decides whether x, y or both advance by their step sign. With i and j the steps
   * taken so far along x and y, the error is dx (j + 1) - dy (i + 1), and neither
   * coordinate passes the target.
   */
  method LineStep(start: Point, dx: int, dy: int, sx: int, sy: int, x0: int, y0: int, error0: int, ghost i0: int, ghost j0: int)
    returns (x: int, y: int, error: int, ghost i: int, ghost j: int)
    requires (sx == 1 || sx == -1) && (sy == 1 || sy == -1)
    requires 0 <= i0 <= dx && 0 <= j0 <= dy && (i0 < dx || j0 < dy)
    requires x0 == if sx == 1 then start.x + i0 else start.x - i0
    requires y0 == if sy == 1 then start.y + j0 else start.y - j0
    requires error0 == dx * (j0 + 1) - dy * (i0 + 1)
    ensures 0 <= i <= dx && 0 <= j <= dy
    ensures i0 <= i <= i0 + 1 && j0 <= j <= j0 + 1 && (i, j) != (i0, j0)
    ensures x == if sx == 1 then start.x + i else start.x - i
    ensures y == if sy == 1 then start.y + j else start.y - j
    ensures error == dx * (j + 1) - dy * (i + 1)
    ensures Point(i, j) == BresenhamNext(dx, dy, Point(i0, j0))
  {
    x, y, error, i, j := x0, y0, error0, i0, j0;
    if i0 == dx {
      NoOvershootX(dx, dy, j0);
    }
    if j0 == dy {
      NoOvershootY(dx, dy, i0);
    }
    var error2 := 2 * error;
    if error2 > -dy {
      error := error - dy;
      x := x + sx;
      i := i + 1;
      MulSucc(dy, i0 + 1);
    }
    if error2 < dx {
      error := error + dx;
      y := y + sy;
      j := j + 1;
      MulSucc(dx, j0 + 1);
    }
  }

  lemma MulSucc(a: int, n: int)
    ensures a * (n + 1) == a * n + a
  {
  }

  /** Appending a neighbour of the last cell keeps a sequence of cells a chain of neighbours. */
  lemma KingStepsAppend(cells: seq<Point>, c: Point)
    requires forall k :: 0 <= k < |cells| - 1 ==> KingStep(cells[k], cells[k + 1])
    requires |cells| > 0 ==> KingStep(cells[|cells| - 1], c)
    ensures forall k :: 0 <= k < |cells| ==> KingStep((cells + [c])[k], (cells + [c])[k + 1])
  {
  }

  /**
   * The loop of intersectLine: Bresenham's line algorithm from `start` to `target`, applying
   * the cell test `test` at every cell and stopping at the first cell whose test hits.
   * `cells` is the walk: it starts at `start`, moves one neighbour at a time, every cell
   * before the last misses, the last is the hit cell, and without a hit it is `target`.
   */
  method WalkLine(test: Point -> RayResult, start: Point, target: Point)
    returns (found: bool, res: RayResult, ghost cells: seq<Point>)
    ensures |cells| >= 1 && cells[0] == start
    ensures forall k :: 0 <= k < |cells| - 1 ==> KingStep(cells[k], cells[k + 1])
    ensures forall k :: 0 <= k < |cells| - 1 ==> !test(cells[k]).hit
    ensures res == test(cells[|cells| - 1]) && found == res.hit
    ensures !found ==> cells[|cells| - 1] == target
    ensures BresenhamWalk(start, target, cells)
  {
    var x, y := start.x, start.y;
    var dx, dy := Abs(target.x - x), Abs(target.y - y);
    var sx := if x < target.x then 1 else -1;
    var sy := if y < target.y then 1 else -1;
    var error := dx - dy;
    ghost var i, j := 0, 0;
    cells := [];
    while true
      invariant 0 <= i <= dx && 0 <= j <= dy
      invariant x == if sx == 1 then start.x + i else start.x - i
      invariant y == if sy == 1 then start.y + j else start.y - j
      invariant error == dx * (j + 1) - dy * (i + 1)
      invariant |cells| == 0 ==> Point(x, y) == start
      invariant |cells| > 0 ==> cells[0] == start && KingStep(cells[|cells| - 1], Point(x, y))
      invariant forall k :: 0 <= k < |cells| - 1 ==> KingStep(cells[k], cells[k + 1])
      invariant forall k :: 0 <= k < |cells| ==> !test(cells[k]).hit
      invariant |cells| == 0 || BresenhamWalk(start, target, cells)
      invariant |cells| > 0 ==> Point(i, j) == BresenhamNext(dx, dy, Offset(start, cells[|cells| - 1]))
      decreases (dx - i) + (dy - j)
    {
      res := test(Point(x, y));
      WalkedCell(start, target, sx, sy, i, j, x, y);
      if |cells| == 0 {
        assert BresenhamWalk(start, target, [Point(x, y)]);
      } else {
        BresenhamWalkAppend(start, target, cells, Point(x, y));
      }
      KingStepsAppend(cells, Point(x, y));
      cells := cells + [Point(x, y)];
      if res.hit {
        found := true;
        return;
      }
      if x == target.x && y == target.y {
        break;
      }
      ghost var before := Point(x, y);
      x, y, error, i, j := LineStep(start, dx, dy, sx, sy, x, y, error, i, j);
      assert KingStep(before, Point(x, y));
    }
    found := false;
  }

  /**
   * intersectLine: walks the cells from the origin's cell to the cell of origin + dir * length,
   * testing at each the quads at the cell and on either side of it (SideOffset), and stops at
   * the first cell with a hit. `length` and `normal` are the caller's in/out parameters: on a
   * hit the length shrinks to the hit distance and the normal becomes the ground normal at the
   * hit point; otherwise both are untouched.
   */
  method IntersectLine(sqrt: real -> real, t: TerrainData, origin: Vec3, dir: Vec3, length: real, normal: Vec3)
    returns (hit: bool, newLength: real, newNormal: Vec3, ghost cells: seq<Point>)
    requires IsSqrt(sqrt) && Valid(t) && t.mapWidth >= 2 && t.mapHeight >= 2
    ensures var o := SideOffset(ToMap3(t, origin), ToMap3(t, Add(origin, Scale(dir, length))));
            && |cells| >= 1 && cells[0] == ToMap3(t, origin)
            && (forall k :: 0 <= k < |cells| - 1 ==> KingStep(cells[k], cells[k + 1]))
            && (forall k :: 0 <= k < |cells| - 1 ==> !CellTest(t, origin, dir, cells[k], o, length).hit)
            && (hit ==> CellTest(t, origin, dir, cells[|cells| - 1], o, length) == RayResult(true, newLength))
            && (!hit ==> !CellTest(t, origin, dir, cells[|cells| - 1], o, length).hit
                         && cells[|cells| - 1] == ToMap3(t, Add(origin, Scale(dir, length))))
            && BresenhamWalk(ToMap3(t, origin), ToMap3(t, Add(origin, Scale(dir, length))), cells)
    ensures hit ==> 0.0 < newLength < length
    ensures hit ==> var p := Add(origin, Scale(dir, newLength));
                    newNormal == GetNormalClamped(sqrt, t, Vec2(p.x, p.z))
    ensures !hit ==> newLength == length && newNormal == normal
  {
    var start := ToMap3(t, origin);
    var target := ToMap3(t, Add(origin, Scale(dir, length)));
    var o := SideOffset(start, target);
    var res;
    hit, res, cells := WalkLine(c => CellTest(t, origin, dir, c, o, length), start, target);
    if hit {
      newLength := res.distance;
      var p := Add(origin, Scale(dir, newLength));
      newNormal := GetNormalClamped(sqrt, t, Vec2(p.x, p.z));
    } else {
      newLength, newNormal := length, normal;
    }
  }

  /** One glDrawElements call of a triangle strip: the first index and the index count. */
  datatype DrawCall = DrawCall(first: int, count: int)

  /** The cells [lo, hi] covered along one axis by a QRect edge at `pos` with extent `size` (normalised). */
  function AxisLow(pos: int, size: int): int {
    if size >= 0 then pos else pos + size
  }

  function AxisHigh(pos: int, size: int): int {
    if size >= 0 then pos + size - 1 else pos - 1
  }

  function Max(a: int, b: int): int { if a >= b then a else b }
  function Min(a: int, b: int): int { if a <= b then a else b }

  /**
   * rect.intersected(QRect(QPoint(0, 0), QSize(W - 1, H - 1))): the overlap of the normalised
   * rectangle with the drawable cells. When there is no overlap the width or the height is
   * less than one (Qt returns the null rectangle, which the caller treats the same way).
   */
  function ClipToCells(t: TerrainData, r: Rect): (c: Rect)
    ensures c.size.x >= 1 ==> 0 <= c.topLeft.x && c.topLeft.x + c.size.x <= t.mapWidth - 1
    ensures c.size.y >= 1 ==> 0 <= c.topLeft.y && c.topLeft.y + c.size.y <= t.mapHeight - 1
  {
    var lx := Max(AxisLow(r.topLeft.x, r.size.x), 0);
    var hx := Min(AxisHigh(r.topLeft.x, r.size.x), t.mapWidth - 2);
    var ly := Max(AxisLow(r.topLeft.y, r.size.y), 0);
    var hy := Min(AxisHigh(r.topLeft.y, r.size.y), t.mapHeight - 2);
    Rect(Point(lx, ly), Point(hx - lx + 1, hy - ly + 1))
  }

  /** A cell lies in the clipped rectangle exactly when it lies in the rectangle and in [0, W-2] x [0, H-2]. */
  lemma ClipIsIntersection(t: TerrainData, r: Rect, px: int, py: int)
    ensures var c := ClipToCells(t, r);
            (c.topLeft.x <= px < c.topLeft.x + c.size.x && c.topLeft.y <= py < c.topLeft.y + c.size.y)
            <==> (AxisLow(r.topLeft.x, r.size.x) <= px <= AxisHigh(r.topLeft.x, r.size.x)
                  && AxisLow(r.topLeft.y, r.size.y) <= py <= AxisHigh(r.topLeft.y, r.size.y)
                  && InCells(t, Point(px, py)))
  {
  }

  /** The strip drawn for row `slice` of the patch: 2 (width + 1) indices from 2 (x + W slice). */
  function PatchCall(t: TerrainData, c: Rect, slice: int): DrawCall {
    DrawCall(2 * (c.topLeft.x + t.mapWidth * slice), c.size.x * 2 + 2)
  }

  /** The patch is drawn unless its clipped rectangle is empty or starts below the last strip row. */
  predicate PatchDrawn(t: TerrainData, c: Rect) {
    !(c.size.x < 1 || c.size.y < 1 || c.topLeft.y >= t.mapHeight - 1)
  }

  /**
   * drawPatchMap(QRect): one triangle-strip call per row of the clipped rectangle, in row order.
   */
  method DrawPatchMap(t: TerrainData, rect: Rect) returns (calls: seq<DrawCall>)
    requires Valid(t)
    ensures var c := ClipToCells(t, rect);
            && (!PatchDrawn(t, c) ==> calls == [])
            && (PatchDrawn(t, c) ==>
                  && |calls| == c.size.y
                  && forall k :: 0 <= k < |calls| ==> calls[k] == PatchCall(t, c, c.topLeft.y + k))
  {
    var c := ClipToCells(t, rect);
    calls := [];
    if c.size.x < 1 || c.size.y < 1 || c.topLeft.y >= t.mapHeight - 1 {
      return;
    }
    var slice := c.topLeft.y;
    while slice < c.topLeft.y + c.size.y
      invariant c.topLeft.y <= slice <= c.topLeft.y + c.size.y
      invariant |calls| == slice - c.topLeft.y
      invariant forall k :: 0 <= k < |calls| ==> calls[k] == PatchCall(t, c, c.topLeft.y + k)
    {
      calls := calls + [PatchCall(t, c, slice)];
      slice := slice + 1;
    }
  }

  /** The bottom-row guard of drawPatchMap never fires: clipping already keeps y <= H - 2. */
  lemma BottomRowGuardRedundant(t: TerrainData, rect: Rect)
    ensures var c := ClipToCells(t, rect);
            PatchDrawn(t, c) <==> c.size.x >= 1 && c.size.y >= 1
  {
  }

  /**
   * Every strip drawn for a patch stays inside the index buffer, and, over the constructor's
   * strip layout, its entries 2m and 2m + 1 are the vertices (x + m, slice) and (x + m, slice + 1):
   * the strip covers exactly the columns x .. x + width of that row pair.
   */
  lemma PatchCallInBuffer(t: TerrainData, rect: Rect, k: int, m: int)
    requires Valid(t)
    requires PatchDrawn(t, ClipToCells(t, rect))
    requires 0 <= k < ClipToCells(t, rect).size.y
    requires 0 <= m <= ClipToCells(t, rect).size.x
    ensures var c := ClipToCells(t, rect);
            var call := PatchCall(t, c, c.topLeft.y + k);
            var slice := c.topLeft.y + k;
            0 <= call.first && call.first + call.count <= |t.indices|
            && TerrainBuild.StripIndex(t.mapWidth, call.first + 2 * m) == VertexIndex(t.mapWidth, c.topLeft.x + m, slice)
            && TerrainBuild.StripIndex(t.mapWidth, call.first + 2 * m + 1) == VertexIndex(t.mapWidth, c.topLeft.x + m, slice + 1)
  {
    var c := ClipToCells(t, rect);
    var W, H := t.mapWidth, t.mapHeight;
    var slice := c.topLeft.y + k;
    var x := c.topLeft.x;
    assert 0 <= slice < H - 1;
    RowFits(W, H - 1, slice);
    assert 2 * (x + W * slice) + c.size.x * 2 + 2 == 2 * (slice * W + (x + c.size.x + 1));
    TerrainBuild.StripPair(W, H, x + m, slice);
    assert 2 * (x + W * slice) + 2 * m == 2 * VertexIndex(W, x + m, slice);
  }

  /**
   * draw(): the whole map, one strip of 2W indices per row pair, the strip for row `slice`
   * starting at index 2 W slice.
   */
  method Draw(t: TerrainData) returns (calls: seq<DrawCall>)
    requires Valid(t)
    ensures |calls| == t.mapHeight - 1
    ensures forall k :: 0 <= k < |calls| ==> calls[k] == DrawCall(2 * (t.mapWidth * k), t.mapWidth * 2)
  {
    calls := [];
    var slice := 0;
    while slice < t.mapHeight - 1
      invariant 0 <= slice <= t.mapHeight - 1
      invariant |calls| == slice
      invariant forall k :: 0 <= k < |calls| ==> calls[k] == DrawCall(2 * (t.mapWidth * k), t.mapWidth * 2)
    {
      calls := calls + [DrawCall(2 * (t.mapWidth * slice), t.mapWidth * 2)];
      slice := slice + 1;
    }
  }

  /** The strips of draw() tile the index buffer: each ends where the next begins, the last at its end. */
  lemma DrawTilesBuffer(t: TerrainData, k: int)
    requires Valid(t) && 0 <= k < t.mapHeight - 1
    ensures 0 <= 2 * (t.mapWidth * k)
    ensures 2 * (t.mapWidth * k) + t.mapWidth * 2 == 2 * (t.mapWidth * (k + 1))
    ensures 2 * (t.mapWidth * k) + t.mapWidth * 2 <= |t.indices|
  {
    RowFits(t.mapWidth, t.mapHeight - 1, k);
  }
}

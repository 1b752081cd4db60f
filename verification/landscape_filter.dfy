/**
 * The landscape's terrain filter and blob gate.
 *
 * The filter splits the square of side 2*farPlane around the eye into a W x H grid of
 * patches (row-major, patch (x, z) at index z*W + x). Each frame it tests every patch's
 * bounding sphere against the view frustum and, per row, draws the union of the visible
 * patches' rectangles once. A blob (a terrain part drawn with another material) is drawn
 * only for high enough priorities and only where its rectangle overlaps the visible one.
 */
module LandscapeFilter {
  import opened Math3D
  import opened Wrappers
  import opened TerrainMap
  import opened Frustum

  // ---------------------------------------------------------------------------------
  // Real rectangles (QRectF): null test, edges and union

  /** QRectF(): the null rectangle. */
  const NullRect: RectF := RectF(Vec2(0.0, 0.0), Vec2(0.0, 0.0))

  /** QRectF::isNull: zero width and zero height. */
  predicate IsNull(r: RectF) {
    r.size.x == 0.0 && r.size.y == 0.0
  }

  /** The edges of a rectangle whose size may be negative. */
  function Left(r: RectF): real { if r.size.x < 0.0 then r.topLeft.x + r.size.x else r.topLeft.x }
  function Right(r: RectF): real { if r.size.x < 0.0 then r.topLeft.x else r.topLeft.x + r.size.x }
  function Top(r: RectF): real { if r.size.y < 0.0 then r.topLeft.y + r.size.y else r.topLeft.y }
  function Bottom(r: RectF): real { if r.size.y < 0.0 then r.topLeft.y else r.topLeft.y + r.size.y }

  function Min(a: real, b: real): real { if a <= b then a else b }
  function Max(a: real, b: real): real { if a <= b then b else a }

  /**
   * QRectF::united: a null operand yields the other one; otherwise the normalised
   * rectangle spanning the extreme edges of both.
   */
  function United(a: RectF, b: RectF): (u: RectF)
    ensures IsNull(a) ==> u == b
    ensures !IsNull(a) && IsNull(b) ==> u == a
  {
    if IsNull(a) then b
    else if IsNull(b) then a
    else
      var left := Min(Left(a), Left(b));
      var top := Min(Top(a), Top(b));
      RectF(Vec2(left, top), Vec2(Max(Right(a), Right(b)) - left, Max(Bottom(a), Bottom(b)) - top))
  }

  /** `a` lies inside `b`, edge by edge. */
  predicate Within(a: RectF, b: RectF) {
    Left(b) <= Left(a) && Right(a) <= Right(b) && Top(b) <= Top(a) && Bottom(a) <= Bottom(b)
  }

  /** A non-null rectangle has a positive extent along some axis. */
  lemma NonNullExtent(r: RectF)
    ensures Left(r) <= Right(r) && Top(r) <= Bottom(r)
    ensures !IsNull(r) <==> Left(r) < Right(r) || Top(r) < Bottom(r)
  {
  }

  /**
   * The union of two non-null rectangles is the smallest rectangle containing both: it is
   * not null, contains each operand, and lies within every rectangle containing both.
   */
  lemma UnitedIsBoundingBox(a: RectF, b: RectF)
    requires !IsNull(a) && !IsNull(b)
    ensures !IsNull(United(a, b))
    ensures Within(a, United(a, b)) && Within(b, United(a, b))
    ensures forall box :: Within(a, box) && Within(b, box) ==> Within(United(a, b), box)
  {
    NonNullExtent(a);
    NonNullExtent(b);
  }

  // ---------------------------------------------------------------------------------
  // Integer rectangles (QRect) and the blob gate

  /** QRect stores the inclusive corners x1, y1, x2 = x1 + width - 1, y2 = y1 + height - 1. */
  function X1(r: Rect): int { r.topLeft.x }
  function Y1(r: Rect): int { r.topLeft.y }
  function X2(r: Rect): int { r.topLeft.x + r.size.x - 1 }
  function Y2(r: Rect): int { r.topLeft.y + r.size.y - 1 }

  /** QRect(): the null rectangle x1 = y1 = 0, x2 = y2 = -1. */
  const EmptyRect: Rect := Rect(Point(0, 0), Point(0, 0))

  /** QRect::isNull: zero width and zero height. */
  predicate IsNullRect(r: Rect) {
    r.size.x == 0 && r.size.y == 0
  }

  /** The rectangle with inclusive corners (x1, y1) and (x2, y2). */
  function FromCorners(x1: int, y1: int, x2: int, y2: int): Rect {
    Rect(Point(x1, y1), Point(x2 - x1 + 1, y2 - y1 + 1))
  }

  function MinInt(a: int, b: int): int { if a <= b then a else b }
  function MaxInt(a: int, b: int): int { if a <= b then b else a }

  /**
   * QRect::intersected: null if either operand is null or the spans are disjoint along an
   * axis; otherwise the overlap of the (normalised) spans.
   */
  function Intersected(a: Rect, b: Rect): (r: Rect)
    ensures IsNullRect(a) || IsNullRect(b) ==> r == EmptyRect
  {
    if IsNullRect(a) || IsNullRect(b) then EmptyRect
    else
      var l1 := if X2(a) - X1(a) + 1 < 0 then X2(a) else X1(a);
      var r1 := if X2(a) - X1(a) + 1 < 0 then X1(a) else X2(a);
      var l2 := if X2(b) - X1(b) + 1 < 0 then X2(b) else X1(b);
      var r2 := if X2(b) - X1(b) + 1 < 0 then X1(b) else X2(b);
      if l1 > r2 || l2 > r1 then EmptyRect
      else
        var t1 := if Y2(a) - Y1(a) + 1 < 0 then Y2(a) else Y1(a);
        var b1 := if Y2(a) - Y1(a) + 1 < 0 then Y1(a) else Y2(a);
        var t2 := if Y2(b) - Y1(b) + 1 < 0 then Y2(b) else Y1(b);
        var b2 := if Y2(b) - Y1(b) + 1 < 0 then Y1(b) else Y2(b);
        if t1 > b2 || t2 > b1 then EmptyRect
        else FromCorners(MaxInt(l1, l2), MaxInt(t1, t2), MinInt(r1, r2), MinInt(b1, b2))
  }

  /** The cell p is covered by r (a rectangle of non-negative size). */
  predicate Covers(r: Rect, p: Point) {
    r.topLeft.x <= p.x < r.topLeft.x + r.size.x && r.topLeft.y <= p.y < r.topLeft.y + r.size.y
  }

  predicate Normalised(r: Rect) {
    r.size.x >= 0 && r.size.y >= 0
  }

  /**
   * For rectangles of non-negative size the intersection covers exactly the cells both
   * operands cover, and is itself of non-negative size.
   */
  lemma IntersectedCells(a: Rect, b: Rect, p: Point)
    requires Normalised(a) && Normalised(b)
    ensures Normalised(Intersected(a, b))
    ensures Covers(Intersected(a, b), p) <==> Covers(a, p) && Covers(b, p)
  {
  }

  /** Blob::drawPatchMap's gate: blobs of priority below 99 - quality are not drawn. */
  predicate PriorityPasses(priority: int, quality: int) {
    priority >= 99 - quality
  }

  /**
   * Blob::drawPatchMap: the part of the blob's rectangle that is drawn for the visible
   * map rectangle, or None when the priority gate fails or the overlap is at most one
   * cell wide or high.
   */
  function BlobPatchMap(priority: int, quality: int, blob: Rect, visible: Rect): (r: Option<Rect>)
    ensures r.Some? ==> PriorityPasses(priority, quality) && r.value == Intersected(blob, visible)
    ensures r.Some? ==> r.value.size.x > 1 && r.value.size.y > 1
  {
    if PriorityPasses(priority, quality) then
      var rectToDraw := Intersected(blob, visible);
      if rectToDraw.size.x <= 1 || rectToDraw.size.y <= 1 then None else Some(rectToDraw)
    else None
  }

  /** Both rectangles cover the 2 x 2 block of cells whose top-left cell is (x, y). */
  predicate SharesBlockAt(a: Rect, b: Rect, x: int, y: int) {
    Covers(a, Point(x, y)) && Covers(b, Point(x, y)) && Covers(a, Point(x + 1, y + 1)) && Covers(b, Point(x + 1, y + 1))
  }

  /**
   * For rectangles of non-negative size a blob is drawn exactly when its priority passes
   * the gate and it shares a 2 x 2 block of cells with the visible rectangle; what is
   * drawn is then exactly the cells both cover.
   */
  lemma BlobDrawnIffSharedBlock(priority: int, quality: int, blob: Rect, visible: Rect)
    requires Normalised(blob) && Normalised(visible)
    ensures BlobPatchMap(priority, quality, blob, visible).Some?
            <==> PriorityPasses(priority, quality) && exists x, y :: SharesBlockAt(blob, visible, x, y)
    ensures BlobPatchMap(priority, quality, blob, visible).Some? ==>
              forall p :: Covers(BlobPatchMap(priority, quality, blob, visible).value, p) <==> Covers(blob, p) && Covers(visible, p)
  {
    var d := Intersected(blob, visible);
    forall p
      ensures Covers(d, p) <==> Covers(blob, p) && Covers(visible, p)
    {
      IntersectedCells(blob, visible, p);
    }
    if d.size.x > 1 && d.size.y > 1 {
      var x, y := d.topLeft.x, d.topLeft.y;
      assert Covers(d, Point(x, y)) && Covers(d, Point(x + 1, y + 1));
      assert SharesBlockAt(blob, visible, x, y);
    }
  }

  // ---------------------------------------------------------------------------------
  // Patches

  /** Landscape::Filter::Patch: a box with its centre and bounding-sphere radius. */
  datatype Patch = Patch(position: Vec3, size: Vec3, center: Vec3, radius: real)

  /** Patch(): everything zero. */
  const EmptyPatch: Patch := Patch(Zero3, Zero3, Zero3, 0.0)

  /** Patch(position, size): the centre is the box's midpoint, the radius half its diagonal. */
  function MakePatch(sqrt: real -> real, position: Vec3, size: Vec3): (p: Patch)
    requires IsSqrt(sqrt)
    ensures p.position == position && p.size == size
    ensures p.radius >= 0.0 && 4.0 * p.radius * p.radius == LengthSq(size)
  {
    Patch(position, size, Add(position, Scale(size, 0.5)), Length(sqrt, size) / 2.0)
  }

  /** The point q lies in the box at `position` of non-negative `size`. */
  predicate InBox(position: Vec3, size: Vec3, q: Vec3) {
    position.x <= q.x <= position.x + size.x
    && position.y <= q.y <= position.y + size.y
    && position.z <= q.z <= position.z + size.z
  }

  lemma SquareBound(d: real, h: real)
    requires -h <= d <= h
    ensures d * d <= h * h
  {
    NonNegativeProduct(h - d, h + d);
  }

  /** A patch's bounding sphere contains its box. */
  lemma PatchSphereContainsBox(sqrt: real -> real, position: Vec3, size: Vec3, q: Vec3)
    requires IsSqrt(sqrt)
    requires InBox(position, size, q)
    ensures LengthSq(Sub(q, MakePatch(sqrt, position, size).center))
            <= MakePatch(sqrt, position, size).radius * MakePatch(sqrt, position, size).radius
  {
    var p := MakePatch(sqrt, position, size);
    var d := Sub(q, p.center);
    SquareBound(d.x, size.x * 0.5);
    SquareBound(d.y, size.y * 0.5);
    SquareBound(d.z, size.z * 0.5);
    assert LengthSq(Scale(size, 0.5)) * 4.0 == LengthSq(size);
  }

  /** |n . d| is at most |n| |d| (in squared form). */
  lemma CauchySchwarz(n: Vec3, d: Vec3)
    ensures Dot(n, d) * Dot(n, d) <= LengthSq(n) * LengthSq(d)
  {
    assert LengthSq(n) * LengthSq(d) - Dot(n, d) * Dot(n, d) == LengthSq(Cross(n, d));
    LengthSqNonNegative(Cross(n, d));
  }

  /** A plane with a unit normal changes by at most |d| between two points d apart. */
  lemma UnitPlaneShift(plane: Vec4, q: Vec3, c: Vec3, r: real)
    requires LengthSq(Xyz(plane)) == 1.0 && r >= 0.0
    requires LengthSq(Sub(q, c)) <= r * r
    ensures Evaluate(plane, c) >= Evaluate(plane, q) - r
  {
    var n := Xyz(plane);
    var d := Sub(q, c);
    assert Evaluate(plane, q) == Evaluate(plane, c) + Dot(n, d);
    CauchySchwarz(n, d);
    if Dot(n, d) > r {
      SquareStrictlyMonotone(Dot(n, d), r);
    }
  }

  /** A sphere around a point inside the frustum passes the sphere test (unit plane normals). */
  lemma SphereAroundInsidePoint(planes: seq<Vec4>, q: Vec3, c: Vec3, r: real)
    requires forall k :: 0 <= k < |planes| ==> LengthSq(Xyz(planes[k])) == 1.0
    requires r >= 0.0 && LengthSq(Sub(q, c)) <= r * r && PointInside(planes, q)
    ensures SphereInside(planes, c, r)
  {
    forall k | 0 <= k < |planes|
      ensures Evaluate(planes[k], c) > -r
    {
      UnitPlaneShift(planes[k], q, c, r);
    }
  }

  /** The eye's position projected onto the ground plane. */
  function EyeGround(eye: Vec3): Vec3 {
    Vec3(eye.x, 0.0, eye.z)
  }

  /** Filter::draw's frustum test for a patch: its bounding sphere moved with the eye. */
  predicate Visible(planes: seq<Vec4>, eye: Vec3, p: Patch) {
    SphereInside(planes, Add(EyeGround(eye), p.center), p.radius)
  }

  /** The ground rectangle of a patch moved with the eye. */
  function PatchRect(eye: Vec3, p: Patch): RectF {
    RectF(Vec2(eye.x + p.position.x, eye.z + p.position.z), Vec2(p.size.x, p.size.z))
  }

  /**
   * The culling is conservative: a patch (moved with the eye) that has some point inside
   * a frustum whose planes have unit normals is never culled.
   */
  lemma CullingKeepsPatchWithPointInside(sqrt: real -> real, planes: seq<Vec4>, eye: Vec3,
                                         position: Vec3, size: Vec3, q: Vec3)
    requires IsSqrt(sqrt)
    requires forall k :: 0 <= k < |planes| ==> LengthSq(Xyz(planes[k])) == 1.0
    requires InBox(Add(EyeGround(eye), position), size, q) && PointInside(planes, q)
    ensures Visible(planes, eye, MakePatch(sqrt, position, size))
  {
    var p := MakePatch(sqrt, position, size);
    var shifted := MakePatch(sqrt, Add(EyeGround(eye), position), size);
    assert shifted.center == Add(EyeGround(eye), p.center) && shifted.radius == p.radius;
    PatchSphereContainsBox(sqrt, Add(EyeGround(eye), position), size, q);
    SphereAroundInsidePoint(planes, q, shifted.center, shifted.radius);
  }

  // ---------------------------------------------------------------------------------
  // The patch grid

  /** The grid step along an axis: the square's side 2*farPlane split into n parts. */
  function Step(farPlane: real, n: nat): real {
    if n == 0 then 0.0 else 2.0 * farPlane / n as real
  }

  /**
   * The patch Filter::update puts at grid cell (x, z): its box starts at
   * (-farPlane + x*stepX, offsetY, -farPlane + z*stepZ) and is stepX x sizeY x stepZ.
   */
  function GridPatch(sqrt: real -> real, farPlane: real, offsetY: real, sizeY: real,
                     width: nat, height: nat, x: nat, z: nat): Patch
    requires IsSqrt(sqrt)
  {
    var stepX := Step(farPlane, width);
    var stepZ := Step(farPlane, height);
    MakePatch(sqrt, Vec3(-farPlane + x as real * stepX, offsetY, -farPlane + z as real * stepZ),
              Vec3(stepX, sizeY, stepZ))
  }

  /**
   * The grid tiles [-farPlane, farPlane] along x: the first patch starts at -farPlane,
   * each patch starts where its left neighbour ends, and the last ends at farPlane.
   */
  lemma GridTilesAlongX(sqrt: real -> real, farPlane: real, offsetY: real, sizeY: real,
                        width: nat, height: nat, x: nat, z: nat)
    requires IsSqrt(sqrt) && x < width
    ensures x == 0 ==> GridPatch(sqrt, farPlane, offsetY, sizeY, width, height, x, z).position.x == -farPlane
    ensures x + 1 < width ==>
              GridPatch(sqrt, farPlane, offsetY, sizeY, width, height, x + 1, z).position.x
              == GridPatch(sqrt, farPlane, offsetY, sizeY, width, height, x, z).position.x
                 + GridPatch(sqrt, farPlane, offsetY, sizeY, width, height, x, z).size.x
    ensures x + 1 == width ==>
              GridPatch(sqrt, farPlane, offsetY, sizeY, width, height, x, z).position.x
              + GridPatch(sqrt, farPlane, offsetY, sizeY, width, height, x, z).size.x == farPlane
  {
    var s := Step(farPlane, width);
    assert (x + 1) as real * s == x as real * s + s;
    assert width as real * s == 2.0 * farPlane;
  }

  /** The same along z, between rows. */
  lemma GridTilesAlongZ(sqrt: real -> real, farPlane: real, offsetY: real, sizeY: real,
                        width: nat, height: nat, x: nat, z: nat)
    requires IsSqrt(sqrt) && z < height
    ensures z == 0 ==> GridPatch(sqrt, farPlane, offsetY, sizeY, width, height, x, z).position.z == -farPlane
    ensures z + 1 < height ==>
              GridPatch(sqrt, farPlane, offsetY, sizeY, width, height, x, z + 1).position.z
              == GridPatch(sqrt, farPlane, offsetY, sizeY, width, height, x, z).position.z
                 + GridPatch(sqrt, farPlane, offsetY, sizeY, width, height, x, z).size.z
    ensures z + 1 == height ==>
              GridPatch(sqrt, farPlane, offsetY, sizeY, width, height, x, z).position.z
              + GridPatch(sqrt, farPlane, offsetY, sizeY, width, height, x, z).size.z == farPlane
  {
    var s := Step(farPlane, height);
    assert (z + 1) as real * s == z as real * s + s;
    assert height as real * s == 2.0 * farPlane;
  }

  lemma RealMulMonotone(a: real, b: real, c: real)
    requires a <= b && c >= 0.0
    ensures a * c <= b * c
  {
    NonNegativeProduct(b - a, c);
  }

  lemma RealMulStrict(a: real, b: real, c: real)
    requires a < b && c > 0.0
    ensures a * c < b * c
  {
    assert (b - a) * c > 0.0;
  }

  /** The grid cell index along one axis of the point u in [-farPlane, farPlane). */
  lemma CellAlongAxis(farPlane: real, n: nat, u: real) returns (k: nat)
    requires farPlane > 0.0 && n > 0 && -farPlane <= u < farPlane
    ensures k < n
    ensures -farPlane + k as real * Step(farPlane, n) <= u < -farPlane + (k + 1) as real * Step(farPlane, n)
  {
    var s := Step(farPlane, n);
    assert s > 0.0;
    var t := (u + farPlane) / s;
    assert t * s == u + farPlane;
    assert 0.0 <= t;
    assert t < n as real by {
      assert n as real * s == 2.0 * farPlane;
    }
    k := Floor(t);
    RealMulMonotone(k as real, t, s);
    RealMulStrict(t, (k + 1) as real, s);
  }

  /**
   * Every ground point of the square [-farPlane, farPlane)^2 lies in the rectangle of some
   * grid patch: the grid covers the whole square.
   */
  lemma GridCoversSquare(sqrt: real -> real, farPlane: real, offsetY: real, sizeY: real,
                         width: nat, height: nat, u: real, v: real)
    returns (x: nat, z: nat)
    requires IsSqrt(sqrt) && farPlane > 0.0 && width > 0 && height > 0
    requires -farPlane <= u < farPlane && -farPlane <= v < farPlane
    ensures x < width && z < height
    ensures var p := GridPatch(sqrt, farPlane, offsetY, sizeY, width, height, x, z);
            p.position.x <= u < p.position.x + p.size.x && p.position.z <= v < p.position.z + p.size.z
  {
    x := CellAlongAxis(farPlane, width, u);
    z := CellAlongAxis(farPlane, height, v);
    var sx := Step(farPlane, width);
    var sz := Step(farPlane, height);
    assert (x + 1) as real * sx == x as real * sx + sx;
    assert (z + 1) as real * sz == z as real * sz + sz;
  }

  lemma MulMonotone(a: int, b: int, c: int)
    requires a <= b && c >= 0
    ensures a * c <= b * c
  {
    assert (b - a) * c >= 0;
  }

  /** Euclidean division is unique: q*w + r with 0 <= r < w has quotient q and remainder r. */
  lemma DivModUnique(k: int, w: int, q: int, r: int)
    requires w > 0 && 0 <= r < w && k == q * w + r
    ensures k / w == q && k % w == r
  {
    var q', r' := k / w, k % w;
    assert k == q' * w + r';
    if q' > q {
      MulMonotone(q + 1, q', w);
    } else if q' < q {
      MulMonotone(q' + 1, q, w);
    }
  }

  /** The flat index z*W + x of cell (x, z) lies in the W x H array, and maps back to (x, z). */
  lemma GridIndex(x: nat, z: nat, width: nat, height: nat)
    requires x < width && z < height
    ensures z * width + x < width * height
    ensures (z * width + x) % width == x && (z * width + x) / width == z
  {
    MulMonotone(z + 1, height, width);
    assert (z + 1) * width == z * width + width;
    DivModUnique(z * width + x, width, z, x);
  }

  /** The flat indices of row z are z*W + x for the columns x of the row. */
  lemma RowIndices(start: nat, z: nat, width: nat, height: nat)
    requires start == z * width && z < height
    ensures forall i :: start <= i < start + width ==> i % width == i - start && i / width == z
  {
    forall i | start <= i < start + width
      ensures i % width == i - start && i / width == z
    {
      GridIndex(i - start, z, width, height);
    }
  }

  // ---------------------------------------------------------------------------------
  // The per-row union and the drawn rectangles

  /**
   * The rectangle Filter::draw accumulates over a row: the union, left to right, of the
   * rectangles of the visible patches.
   */
  function RowUnion(row: seq<Patch>, planes: seq<Vec4>, eye: Vec3): RectF
    decreases |row|
  {
    if |row| == 0 then NullRect
    else
      var u := RowUnion(row[..|row| - 1], planes, eye);
      var p := row[|row| - 1];
      if Visible(planes, eye, p) then United(u, PatchRect(eye, p)) else u
  }

  /** Every rectangle in the row has a non-zero extent. */
  predicate SolidRow(row: seq<Patch>, eye: Vec3) {
    forall k :: 0 <= k < |row| ==> !IsNull(PatchRect(eye, row[k]))
  }

  /**
   * For a row of non-null rectangles, the union is null exactly when no patch is visible,
   * and otherwise it is the bounding box of the visible patches: it contains each of them
   * and lies within every rectangle that contains them all.
   */
  lemma {:induction false} RowUnionIsBoundingBox(row: seq<Patch>, planes: seq<Vec4>, eye: Vec3)
    requires SolidRow(row, eye)
    ensures IsNull(RowUnion(row, planes, eye)) <==> forall k :: 0 <= k < |row| ==> !Visible(planes, eye, row[k])
    ensures forall k :: 0 <= k < |row| && Visible(planes, eye, row[k]) ==>
              Within(PatchRect(eye, row[k]), RowUnion(row, planes, eye))
    ensures forall box :: !IsNull(RowUnion(row, planes, eye))
              && (forall k :: 0 <= k < |row| && Visible(planes, eye, row[k]) ==> Within(PatchRect(eye, row[k]), box))
              ==> Within(RowUnion(row, planes, eye), box)
    decreases |row|
  {
    if |row| > 0 {
      var init := row[..|row| - 1];
      var last := row[|row| - 1];
      assert forall k :: 0 <= k < |init| ==> init[k] == row[k];
      RowUnionIsBoundingBox(init, planes, eye);
      var u := RowUnion(init, planes, eye);
      if Visible(planes, eye, last) && !IsNull(u) {
        UnitedIsBoundingBox(u, PatchRect(eye, last));
      }
    }
  }

  /**
   * The rows of a row-major grid of the given width: consecutive chunks of `width`
   * patches (a grid of width 0 has no patches to draw).
   */
  function Rows(ps: seq<Patch>, width: nat): (rows: seq<seq<Patch>>)
    ensures forall z :: 0 <= z < |rows| ==> |rows[z]| == width
    ensures |rows| > 0 ==> 0 < width <= |ps|
    decreases |ps|
  {
    if width == 0 || |ps| < width then [] else [ps[..width]] + Rows(ps[width..], width)
  }

  /** The rectangles Filter::draw draws for a sequence of rows: each non-null row union, in order. */
  function DrawnRows(rows: seq<seq<Patch>>, planes: seq<Vec4>, eye: Vec3): seq<RectF>
  {
    if |rows| == 0 then []
    else
      var u := RowUnion(rows[0], planes, eye);
      (if IsNull(u) then [] else [u]) + DrawnRows(rows[1..], planes, eye)
  }

  /** A W x H grid has H rows. */
  lemma {:induction false} RowCount(ps: seq<Patch>, width: nat, height: nat)
    requires width > 0 && |ps| == height * width
    ensures |Rows(ps, width)| == height
    decreases height
  {
    if height > 0 {
      assert height * width == (height - 1) * width + width;
      RowCount(ps[width..], width, height - 1);
    }
  }

  /**
   * Drawing the rows from index `start` on draws the row at `start`, then the rows after
   * it: appending the row's union (when not null) to what was drawn before keeps the
   * drawn rectangles a prefix of those of the whole grid.
   */
  lemma DrawnRowsStep(ps: seq<Patch>, start: nat, width: nat, planes: seq<Vec4>, eye: Vec3,
                      drawn: seq<RectF>, merged: RectF)
    requires 0 < width && start + width <= |ps|
    requires merged == RowUnion(ps[start .. start + width], planes, eye)
    requires DrawnRows(Rows(ps, width), planes, eye) == drawn + DrawnRows(Rows(ps[start..], width), planes, eye)
    ensures |Rows(ps[start..], width)| == |Rows(ps[start + width..], width)| + 1
    ensures !IsNull(merged) ==>
              DrawnRows(Rows(ps, width), planes, eye) == (drawn + [merged]) + DrawnRows(Rows(ps[start + width..], width), planes, eye)
    ensures IsNull(merged) ==>
              DrawnRows(Rows(ps, width), planes, eye) == drawn + DrawnRows(Rows(ps[start + width..], width), planes, eye)
  {
    var tail := ps[start..];
    assert tail[..width] == ps[start .. start + width];
    assert tail[width..] == ps[start + width..];
    var rows := Rows(tail, width);
    assert rows == [tail[..width]] + Rows(tail[width..], width);
    assert rows[1..] == Rows(ps[start + width..], width);
    var here := if IsNull(merged) then [] else [merged];
    assert DrawnRows(rows, planes, eye) == here + DrawnRows(Rows(ps[start + width..], width), planes, eye);
    assert drawn + (here + DrawnRows(Rows(ps[start + width..], width), planes, eye))
           == (drawn + here) + DrawnRows(Rows(ps[start + width..], width), planes, eye);
    if IsNull(merged) {
      assert drawn + here == drawn;
    }
  }

  /**
   * For rows of non-null rectangles, the drawn rectangles are exactly the unions of the
   * rows with a visible patch, at most one per row; none of them is null.
   */
  lemma {:induction false} DrawnRowsAreVisibleRows(rows: seq<seq<Patch>>, planes: seq<Vec4>, eye: Vec3)
    requires forall z :: 0 <= z < |rows| ==> SolidRow(rows[z], eye)
    ensures |DrawnRows(rows, planes, eye)| <= |rows|
    ensures forall r :: r in DrawnRows(rows, planes, eye) ==>
              !IsNull(r) && exists z :: 0 <= z < |rows| && r == RowUnion(rows[z], planes, eye)
    ensures forall z, k :: 0 <= z < |rows| && 0 <= k < |rows[z]| && Visible(planes, eye, rows[z][k]) ==>
              RowUnion(rows[z], planes, eye) in DrawnRows(rows, planes, eye)
  {
    if |rows| > 0 {
      var rest := rows[1..];
      DrawnRowsAreVisibleRows(rest, planes, eye);
      RowUnionIsBoundingBox(rows[0], planes, eye);
      forall r | r in DrawnRows(rest, planes, eye)
        ensures exists z :: 0 <= z < |rows| && r == RowUnion(rows[z], planes, eye)
      {
        var z :| 0 <= z < |rest| && r == RowUnion(rest[z], planes, eye);
        assert rows[z + 1] == rest[z];
      }
      forall z, k | 0 < z < |rows| && 0 <= k < |rows[z]| && Visible(planes, eye, rows[z][k])
        ensures RowUnion(rows[z], planes, eye) in DrawnRows(rest, planes, eye)
      {
        assert rows[z] == rest[z - 1];
      }
    }
  }

  // ---------------------------------------------------------------------------------
  // The filter

  /** Landscape::Filter: the grid size and the row-major patch array. */
  class Filter {
    const width: nat
    const height: nat
    const patches: array<Patch>

    ghost predicate Valid()
      reads this
    {
      patches.Length == width * height
    }

    /** Filter(landscape, filterSize): W*H default patches. */
    constructor (width: nat, height: nat)
      ensures Valid() && this.width == width && this.height == height && fresh(patches)
      ensures forall i :: 0 <= i < patches.Length ==> patches[i] == EmptyPatch
    {
      this.width := width;
      this.height := height;
      patches := new Patch[width * height](_ => EmptyPatch);
    }

    /**
     * Filter::update: lays the grid over the square of side 2*farPlane, every patch
     * spanning the terrain's height range [offsetY, offsetY + sizeY].
     */
    method Update(sqrt: real -> real, farPlane: real, offsetY: real, sizeY: real)
      requires IsSqrt(sqrt) && Valid()
      modifies patches
      ensures width > 0 ==> forall i :: 0 <= i < patches.Length ==>
                patches[i] == GridPatch(sqrt, farPlane, offsetY, sizeY, width, height, i % width, i / width)
    {
      var z := 0;
      var start: nat := 0;
      while z < height
        invariant 0 <= z <= height
        invariant start == z * width <= patches.Length
        invariant width > 0 ==> forall i :: 0 <= i < start ==>
                    patches[i] == GridPatch(sqrt, farPlane, offsetY, sizeY, width, height, i % width, i / width)
      {
        MulMonotone(z + 1, height, width);
        assert (z + 1) * width == start + width;
        UpdateRow(sqrt, farPlane, offsetY, sizeY, z, start);
        RowIndices(start, z, width, height);
        z := z + 1;
        start := start + width;
      }
    }

    /** One row of Filter::update: the patches of grid row z, stored from index start (= z*W) on. */
    method UpdateRow(sqrt: real -> real, farPlane: real, offsetY: real, sizeY: real, z: nat, start: nat)
      requires IsSqrt(sqrt) && start + width <= patches.Length
      modifies patches
      ensures forall i :: 0 <= i < patches.Length && !(start <= i < start + width) ==> patches[i] == old(patches[i])
      ensures forall i :: start <= i < start + width ==> patches[i] == GridPatch(sqrt, farPlane, offsetY, sizeY, width, height, i - start, z)
    {
      var stepX := Step(farPlane, width);
      var stepZ := Step(farPlane, height);
      var patchSize := Vec3(stepX, sizeY, stepZ);
      var x := 0;
      while x < width
        invariant 0 <= x <= width
        invariant forall i :: 0 <= i < patches.Length && !(start <= i < start + x) ==> patches[i] == old(patches[i])
        invariant forall i :: start <= i < start + x ==> patches[i] == GridPatch(sqrt, farPlane, offsetY, sizeY, width, height, i - start, z)
      {
        var position := Vec3(-farPlane + x as real * stepX, offsetY, -farPlane + z as real * stepZ);
        assert MakePatch(sqrt, position, patchSize) == GridPatch(sqrt, farPlane, offsetY, sizeY, width, height, x, z);
        patches[start + x] := MakePatch(sqrt, position, patchSize);
        x := x + 1;
      }
    }

    /**
     * Filter::draw: for each row, the union of the rectangles of the patches whose
     * bounding sphere (moved with the eye) passes the frustum test, drawn once if it is
     * not null. The frustum is given by its planes; the drawn rectangles are returned.
     */
    method Draw(planes: seq<Vec4>, eye: Vec3) returns (drawn: seq<RectF>)
      requires Valid()
      ensures drawn == (if width == 0 then [] else DrawnRows(Rows(patches[..], width), planes, eye))
    {
      ghost var ps := patches[..];
      if width > 0 {
        RowCount(ps, width, height);
      }
      drawn := [];
      var z := 0;
      var start: nat := 0;
      while z < height
        invariant 0 <= z <= height && start <= |ps|
        invariant width > 0 ==> |Rows(ps[start..], width)| == height - z
        invariant width > 0 ==>
                    DrawnRows(Rows(ps, width), planes, eye) == drawn + DrawnRows(Rows(ps[start..], width), planes, eye)
        invariant width == 0 ==> start == 0 && drawn == []
      {
        var merged := MergeRow(planes, eye, start);
        if width > 0 {
          assert patches[start .. start + width] == ps[start .. start + width];
          DrawnRowsStep(ps, start, width, planes, eye, drawn, merged);
        }
        if !IsNull(merged) {
          drawn := drawn + [merged];
        }
        z := z + 1;
        start := start + width;
      }
      assert width > 0 ==> Rows(ps[start..], width) == [];
    }

    /** One row of Filter::draw: the union of the rectangles of the visible patches of the row at start. */
    method MergeRow(planes: seq<Vec4>, eye: Vec3, start: nat) returns (merged: RectF)
      requires start + width <= patches.Length
      ensures merged == RowUnion(patches[start .. start + width], planes, eye)
    {
      merged := NullRect;
      var x := 0;
      while x < width
        invariant 0 <= x <= width
        invariant merged == RowUnion(patches[start .. start + x], planes, eye)
      {
        var patch := patches[start + x];
        assert patches[start .. start + x + 1][..x] == patches[start .. start + x];
        if Visible(planes, eye, patch) {
          merged := United(merged, PatchRect(eye, patch));
        }
        x := x + 1;
      }
    }
  }
}

/**
 * Terrain, as declared in its header: a W x H grid of vertices laid out row-major over
 * the X/Z plane, the conversions between world coordinates and heightmap (grid)
 * coordinates, and vertex access by grid coordinate. A terrain never changes after
 * construction, so it is a value here.
 */
module TerrainMap {
  import opened Math3D
  import opened Vertex

  /** An integer point or size (QPoint, QSize). */
  datatype Point = Point(x: int, y: int)
  /** An integer rectangle (QRect): top-left corner and size. */
  datatype Rect = Rect(topLeft: Point, size: Point)
  /** A real rectangle (QRectF). */
  datatype RectF = RectF(topLeft: Vec2, size: Vec2)

  /**
   * The terrain's state: map size, world size and offset, the world-to-map factor,
   * the vertex array (row-major, vertex (x, y) at x + y * width) and the strip index buffer.
   */
  datatype TerrainData = TerrainData(
    mapWidth: int, mapHeight: int,
    size: Vec3, offset: Vec3,
    toMapFactor: Vec2,
    vertices: seq<VertexP3fN3fT2f>,
    indices: seq<int>)

  predicate Valid(t: TerrainData) {
    t.mapWidth >= 1 && t.mapHeight >= 1
    && t.toMapFactor.x != 0.0 && t.toMapFactor.y != 0.0
    && |t.vertices| == t.mapWidth * t.mapHeight
    && |t.indices| == 2 * (t.mapWidth * (t.mapHeight - 1))
  }

  /** toMapF of a world point (x, z): subtract the offset and scale by the factor. */
  function ToMapF(t: TerrainData, p: Vec2): Vec2 {
    Vec2((p.x - t.offset.x) * t.toMapFactor.x, (p.y - t.offset.z) * t.toMapFactor.y)
  }

  /** The QVector3D overload of toMapF: uses x and z. */
  function ToMapF3(t: TerrainData, p: Vec3): Vec2 {
    ToMapF(t, Vec2(p.x, p.z))
  }

  function ToMapFSize(t: TerrainData, s: Vec2): Vec2 {
    Vec2(s.x * t.toMapFactor.x, s.y * t.toMapFactor.y)
  }

  function ToMapFRect(t: TerrainData, r: RectF): RectF {
    RectF(ToMapF(t, r.topLeft), ToMapFSize(t, r.size))
  }

  function FromMapF(t: TerrainData, q: Vec2): Vec2
    requires Valid(t)
  {
    Vec2(q.x / t.toMapFactor.x + t.offset.x, q.y / t.toMapFactor.y + t.offset.z)
  }

  function FromMapFSize(t: TerrainData, s: Vec2): Vec2
    requires Valid(t)
  {
    Vec2(s.x / t.toMapFactor.x, s.y / t.toMapFactor.y)
  }

  /** fromMapF undoes toMapF, and toMapF undoes fromMapF. */
  lemma MapRoundTrip(t: TerrainData, p: Vec2)
    requires Valid(t)
    ensures FromMapF(t, ToMapF(t, p)) == p
    ensures ToMapF(t, FromMapF(t, p)) == p
    ensures FromMapFSize(t, ToMapFSize(t, p)) == p
    ensures ToMapFSize(t, FromMapFSize(t, p)) == p
  {
  }

  /** toMap of a point: the per-axis floor of toMapF, i.e. the grid cell containing it. */
  function ToMap(t: TerrainData, p: Vec2): (r: Point)
    ensures var q := ToMapF(t, p);
            r.x as real <= q.x < r.x as real + 1.0 && r.y as real <= q.y < r.y as real + 1.0
  {
    var q := ToMapF(t, p);
    Point(Floor(q.x), Floor(q.y))
  }

  /** toMap of a QVector3D: the cell containing its (x, z). */
  function ToMap3(t: TerrainData, p: Vec3): Point {
    ToMap(t, Vec2(p.x, p.z))
  }

  /** toMap of a size: the per-axis ceiling of toMapFSize, so the cells cover the size. */
  function ToMapSize(t: TerrainData, s: Vec2): (r: Point)
    ensures var q := ToMapFSize(t, s);
            r.x as real - 1.0 < q.x <= r.x as real && r.y as real - 1.0 < q.y <= r.y as real
  {
    var q := ToMapFSize(t, s);
    Point(Ceil(q.x), Ceil(q.y))
  }

  /** toMap of a rectangle: anchored at the cell of its corner, sized by the ceiling of its size. */
  function ToMapRect(t: TerrainData, r: RectF): (m: Rect)
    ensures m.topLeft == ToMap(t, r.topLeft) && m.size == ToMapSize(t, r.size)
  {
    Rect(ToMap(t, r.topLeft), ToMapSize(t, r.size))
  }

  /** fromMap of a grid point: the world point of the cell corner. */
  function FromMap(t: TerrainData, p: Point): (r: Vec2)
    requires Valid(t)
    ensures r == FromMapF(t, Vec2(p.x as real, p.y as real))
  {
    Vec2(p.x as real / t.toMapFactor.x + t.offset.x, p.y as real / t.toMapFactor.y + t.offset.z)
  }

  /** Mapping a cell corner back finds the same cell. */
  lemma CellRoundTrip(t: TerrainData, p: Point)
    requires Valid(t)
    ensures ToMap(t, FromMap(t, p)) == p
  {
    MapRoundTrip(t, Vec2(p.x as real, p.y as real));
  }

  /**
   * fromMap of a QSize: the quotients are converted to an integer QSize (truncated
   * toward zero) before becoming the returned QSizeF.
   */
  function FromMapSize(t: TerrainData, s: Point): (r: Vec2)
    requires Valid(t)
    ensures var q := FromMapFSize(t, Vec2(s.x as real, s.y as real));
            r == Vec2(Trunc(q.x) as real, Trunc(q.y) as real)
  {
    Vec2(Trunc(s.x as real / t.toMapFactor.x) as real, Trunc(s.y as real / t.toMapFactor.y) as real)
  }

  /** Vertex (x, y) of a W-wide grid is stored at x + y * W. */
  function VertexIndex(width: int, x: int, y: int): int {
    x + y * width
  }

  /** For in-range coordinates the index is in bounds. */
  lemma VertexIndexInRange(width: int, height: int, x: int, y: int)
    requires 0 <= x < width && 0 <= y < height
    ensures 0 <= VertexIndex(width, x, y) < width * height
  {
    RowFits(width, height, y);
  }

  /**
   * For in-range coordinates the index is in bounds, and x and y can be read back from
   * it, so distinct grid points never share a slot.
   */
  lemma VertexIndexInBounds(width: int, height: int, x: int, y: int)
    requires 0 <= x < width && 0 <= y < height
    ensures 0 <= VertexIndex(width, x, y) < width * height
    ensures VertexIndex(width, x, y) % width == x && VertexIndex(width, x, y) / width == y
  {
    var n := VertexIndex(width, x, y);
    RowStartBound(width, y, height - 1);
    var q, r := n / width, n % width;
    assert (y - q) * width == r - x;
    SmallMultipleIsZero(y - q, width, r - x);
  }

  lemma RowStartBound(width: int, y: int, bound: int)
    requires width > 0 && 0 <= y <= bound
    ensures 0 <= y * width <= bound * width
  {
    assert (bound - y) * width >= 0;
  }

  /** h * width as repeated addition: the flat index where row h starts. */
  function RowStart(width: int, h: nat): (r: int)
    ensures width >= 0 ==> r >= 0
  {
    if h == 0 then 0 else RowStart(width, h - 1) + width
  }

  lemma {:induction false} RowStartIsProduct(width: int, h: nat)
    ensures RowStart(width, h) == h * width
  {
    if h > 0 {
      RowStartIsProduct(width, h - 1);
    }
  }

  /** The row of flat index i, by repeated subtraction of the width. */
  function GridRow(width: int, i: int): (r: nat)
    requires width > 0
    decreases i
  {
    if i < width then 0 else 1 + GridRow(width, i - width)
  }

  /** The column of flat index i: what is left after the start of its row. */
  function GridCol(width: int, i: int): int
    requires width > 0
  {
    i - RowStart(width, GridRow(width, i))
  }

  /** The row and column of grid point (w, h)'s flat index read back as h and w. */
  lemma CellReadsBack(width: int, w: int, h: nat)
    requires 0 <= w < width
    ensures GridRow(width, RowStart(width, h) + w) == h && GridCol(width, RowStart(width, h) + w) == w
  {
    RowOfCell(width, w, h);
  }

  /** The last row of a W x H grid ends where the grid does. */
  lemma LastRowEnds(width: int, height: int)
    requires height > 0
    ensures RowStart(width, height - 1) + width == width * height
  {
    RowStartIsProduct(width, height);
  }

  /** Grid point (w, h) has a slot in a W x H grid. */
  lemma CellInGrid(width: int, height: int, w: int, h: nat)
    requires 0 <= w < width && h < height
    ensures 0 <= RowStart(width, h) + w < width * height
  {
    RowStartIsProduct(width, h);
    VertexIndexInRange(width, height, w, h);
  }

  /** Grid point (w, h) sits at RowStart(h) + w, in bounds, and its row and column read back. */
  lemma CellIndex(width: int, height: int, w: int, h: nat)
    requires 0 <= w < width && h < height
    ensures VertexIndex(width, w, h) == RowStart(width, h) + w
    ensures 0 <= RowStart(width, h) + w < width * height
    ensures GridRow(width, RowStart(width, h) + w) == h && GridCol(width, RowStart(width, h) + w) == w
  {
    RowStartIsProduct(width, h);
    VertexIndexInRange(width, height, w, h);
    RowOfCell(width, w, h);
  }

  lemma {:induction false} RowOfCell(width: int, w: int, h: nat)
    requires 0 <= w < width
    ensures GridRow(width, RowStart(width, h) + w) == h
  {
    if h > 0 {
      RowOfCell(width, w, h - 1);
    }
  }

  /** The column of a non-negative flat index lies in [0, W). */
  lemma {:induction false} ColInRange(width: int, i: int)
    requires width > 0 && i >= 0
    ensures 0 <= GridCol(width, i) < width
    decreases i
  {
    if i >= width {
      ColInRange(width, i - width);
    }
  }

  /** Every flat index below RowStart(H) is the index of an in-range grid point. */
  lemma {:induction false} IndexToCell(width: int, height: nat, i: int)
    requires width > 0 && 0 <= i < RowStart(width, height)
    ensures 0 <= GridCol(width, i) < width && GridRow(width, i) < height
    ensures RowStart(width, GridRow(width, i)) + GridCol(width, i) == i
    decreases i
  {
    assert height > 0;
    ColInRange(width, i);
    if i >= width {
      IndexToCell(width, height - 1, i - width);
    }
  }

  /** Every flat index of a W x H grid is the index of an in-range grid point. */
  lemma IndexInGrid(width: int, height: nat, i: int)
    requires width > 0 && 0 <= i < width * height
    ensures 0 <= GridCol(width, i) < width && GridRow(width, i) < height
    ensures RowStart(width, GridRow(width, i)) + GridCol(width, i) == i
  {
    RowStartIsProduct(width, height);
    IndexToCell(width, height, i);
  }

  /** Row and column are the quotient and remainder of the flat index by the width. */
  lemma RowColAreDivMod(width: int, i: int)
    requires width > 0 && i >= 0
    ensures GridRow(width, i) == i / width && GridCol(width, i) == i % width
  {
    var h := GridRow(width, i);
    ColInRange(width, i);
    RowStartIsProduct(width, h);
    VertexIndexInBounds(width, h + 1, GridCol(width, i), h);
  }

  /** Row h of a W x H grid ends within the grid. */
  lemma RowFits(width: int, height: int, h: int)
    requires width > 0 && 0 <= h < height
    ensures 0 <= h * width && h * width + width <= width * height
  {
    NonNegativeIntProduct(height - h - 1, width);
    NonNegativeIntProduct(h, width);
    assert (height - h - 1) * width == width * height - h * width - width;
  }

  lemma NonNegativeIntProduct(a: int, b: int)
    requires b >= 0
    ensures a >= 0 ==> a * b >= 0
  {
  }

  lemma SmallMultipleIsZero(k: int, width: int, d: int)
    requires width > 0 && k * width == d && -width < d < width
    ensures k == 0
  {
    NonNegativeIntProduct(if k >= 1 then k - 1 else -k - 1, width);
  }

  predicate InGrid(t: TerrainData, x: int, y: int) {
    0 <= x < t.mapWidth && 0 <= y < t.mapHeight
  }

  /** getVertexPosition(x, y). */
  function VertexPosition(t: TerrainData, x: int, y: int): Vec3
    requires Valid(t) && InGrid(t, x, y)
  {
    VertexIndexInBounds(t.mapWidth, t.mapHeight, x, y);
    t.vertices[VertexIndex(t.mapWidth, x, y)].position
  }

  /** getVertexNormal(x, y). */
  function VertexNormal(t: TerrainData, x: int, y: int): Vec3
    requires Valid(t) && InGrid(t, x, y)
  {
    VertexIndexInBounds(t.mapWidth, t.mapHeight, x, y);
    t.vertices[VertexIndex(t.mapWidth, x, y)].normal
  }
}

/**
 * Terrain construction: raw positions from a heightmap, the smoothing pass, vertex
 * normals and texture coordinates, the triangle-strip index buffer, and the strip
 * ranges drawPatchMap draws.
 */
module TerrainBuild {
  import opened Math3D
  import opened Vertex
  import opened TerrainMap

  /**
   * Position of heightmap pixel (w, h) with red value `red`: the offset plus the grid
   * coordinates scaled to the terrain size, and the red value scaled by size.y / 256.
   */
  function RawPosition(size: Vec3, offset: Vec3, width: int, height: int, red: int, w: int, h: int): Vec3
    requires width > 0 && height > 0
  {
    Add(offset, Vec3(w as real * (size.x / width as real), red as real * (size.y / 256.0), h as real * (size.z / height as real)))
  }

  /** The first n raw positions in row-major order; `reds` holds the heightmap's red values row-major. */
  function RawGrid(reds: seq<int>, size: Vec3, offset: Vec3, width: int, height: int, n: int): (ps: seq<Vec3>)
    requires width > 0 && height > 0 && 0 <= n <= |reds|
    ensures |ps| == n
  {
    seq(n, i requires 0 <= i < n => RawPosition(size, offset, width, height, reds[i], GridCol(width, i), GridRow(width, i)))
  }

  /** ps holds the raw positions of the first |ps| pixels, row-major. */
  predicate RawPrefix(reds: seq<int>, size: Vec3, offset: Vec3, width: int, height: int, ps: seq<Vec3>)
    requires width > 0 && height > 0
  {
    && |ps| <= |reds|
    && forall i :: 0 <= i < |ps| ==>
      ps[i] == RawPosition(size, offset, width, height, reds[i], GridCol(width, i), GridRow(width, i))
  }

  /** The constructor's inner loop: appends the raw positions of row h. */
  method RawRow(reds: seq<int>, size: Vec3, offset: Vec3, width: int, height: int, h: nat, ps0: seq<Vec3>)
    returns (ps: seq<Vec3>)
    requires width > 0 && h < height && |reds| == width * height
    requires |ps0| == RowStart(width, h) && RawPrefix(reds, size, offset, width, height, ps0)
    ensures |ps| == RowStart(width, h + 1) <= |reds| && RawPrefix(reds, size, offset, width, height, ps)
  {
    CellIndex(width, height, width - 1, h);
    ps := ps0;
    var w := 0;
    while w < width
      invariant 0 <= w <= width
      invariant |ps| == RowStart(width, h) + w
      invariant RawPrefix(reds, size, offset, width, height, ps)
    {
      CellIndex(width, height, w, h);
      ps := ps + [RawPosition(size, offset, width, height, reds[VertexIndex(width, w, h)], w, h)];
      w := w + 1;
    }
  }

  /** The constructor's first loop: one raw position per pixel, row by row. */
  method RawPositions(reds: seq<int>, size: Vec3, offset: Vec3, width: int, height: int) returns (ps: seq<Vec3>)
    requires width > 0 && height > 0 && |reds| == width * height
    ensures ps == RawGrid(reds, size, offset, width, height, width * height)
  {
    ps := [];
    var h := 0;
    while h < height
      invariant 0 <= h <= height
      invariant |ps| == RowStart(width, h) <= width * height
      invariant RawPrefix(reds, size, offset, width, height, ps)
    {
      ps := RawRow(reds, size, offset, width, height, h, ps);
      h := h + 1;
    }
    RowStartIsProduct(width, height);
  }

  /**
   * Grid entry (x, y) of a row-major W x H sequence. Its slot always exists (CellInGrid);
   * the guard only spares the definition that proof.
   */
  function At(ps: seq<Vec3>, width: int, height: int, x: int, y: int): Vec3
    requires 0 <= x < width && 0 <= y < height
  {
    var i := RowStart(width, y) + x;
    if 0 <= i < |ps| then ps[i] else Zero3
  }

  predicate Interior(width: int, height: int, w: int, h: int) {
    0 < w < width - 1 && 0 < h < height - 1
  }

  /** An interior entry after smoothing: its eight neighbours plus four times itself, over 12. */
  function SmoothedAt(ps: seq<Vec3>, width: int, height: int, w: int, h: int): Vec3
    requires |ps| == width * height && Interior(width, height, w, h)
  {
    var sum := Add(Add(Add(Add(Add(Add(Add(Add(
      At(ps, width, height, w - 1, h - 1), At(ps, width, height, w, h - 1)), At(ps, width, height, w + 1, h - 1)),
      At(ps, width, height, w - 1, h)), Scale(At(ps, width, height, w, h), 4.0)), At(ps, width, height, w + 1, h)),
      At(ps, width, height, w - 1, h + 1)), At(ps, width, height, w, h + 1)), At(ps, width, height, w + 1, h + 1));
    Div(sum, 12.0)
  }

  /** Entry i after smoothing: border entries are copied, interior entries averaged. */
  function SmoothedEntry(ps: seq<Vec3>, width: int, height: int, i: int): Vec3
    requires width > 0 && height > 0 && |ps| == width * height && 0 <= i < |ps|
  {
    IndexInGrid(width, height, i);
    if Interior(width, height, GridCol(width, i), GridRow(width, i)) then
      SmoothedAt(ps, width, height, GridCol(width, i), GridRow(width, i))
    else ps[i]
  }

  function SmoothedGrid(ps: seq<Vec3>, width: int, height: int): (out: seq<Vec3>)
    requires width > 0 && height > 0 && |ps| == width * height
    ensures |out| == |ps|
  {
    seq(|ps|, i requires 0 <= i < |ps| => SmoothedEntry(ps, width, height, i))
  }

  /** Row h is a border row: its smoothed entries are copies. */
  method CopyBorderRow(buf: array<Vec3>, ps: seq<Vec3>, width: int, height: int, h: nat)
    requires width > 0 && h < height && (h == 0 || h == height - 1)
    requires |ps| == width * height && buf.Length == |ps|
    modifies buf
    ensures RowStart(width, h) + width <= buf.Length
    ensures forall i :: 0 <= i < buf.Length ==>
              buf[i] == if RowStart(width, h) <= i < RowStart(width, h) + width
                        then SmoothedEntry(ps, width, height, i) else old(buf[i])
  {
    CellIndex(width, height, width - 1, h);
    var w := 0;
    while w < width
      invariant 0 <= w <= width
      invariant forall i :: 0 <= i < buf.Length ==>
                  buf[i] == if RowStart(width, h) <= i < RowStart(width, h) + w
                            then SmoothedEntry(ps, width, height, i) else old(buf[i])
    {
      SmoothedEntryBorder(ps, width, height, w, h);
      buf[RowStart(width, h) + w] := ps[RowStart(width, h) + w];
      w := w + 1;
    }
  }

  /** The entries between the first and the last of middle row h, each smoothed. */
  method SmoothInterior(buf: array<Vec3>, ps: seq<Vec3>, width: int, height: int, h: nat)
    requires width > 0 && 0 < h < height - 1
    requires |ps| == width * height && buf.Length == |ps|
    modifies buf
    ensures RowStart(width, h) + width <= buf.Length
    ensures forall i :: 0 <= i < buf.Length ==>
              buf[i] == if RowStart(width, h) + 1 <= i < RowStart(width, h) + width - 1
                        then SmoothedEntry(ps, width, height, i) else old(buf[i])
  {
    CellIndex(width, height, width - 1, h);
    var w := 1;
    while w < width - 1
      invariant 1 <= w
      invariant w <= width - 1 || w == 1
      invariant forall i :: 0 <= i < buf.Length ==>
                  buf[i] == if RowStart(width, h) + 1 <= i < RowStart(width, h) + w
                            then SmoothedEntry(ps, width, height, i) else old(buf[i])
    {
      SmoothedEntryInterior(ps, width, height, w, h);
      buf[RowStart(width, h) + w] := SmoothedAt(ps, width, height, w, h);
      w := w + 1;
    }
  }

  /** A middle row: the first and last entries copied, the ones between smoothed. */
  method SmoothRow(buf: array<Vec3>, ps: seq<Vec3>, width: int, height: int, h: nat)
    requires width > 0 && 0 < h < height - 1
    requires |ps| == width * height && buf.Length == |ps|
    modifies buf
    ensures RowStart(width, h) + width <= buf.Length
    ensures forall i :: 0 <= i < buf.Length ==>
              buf[i] == if RowStart(width, h) <= i < RowStart(width, h) + width
                        then SmoothedEntry(ps, width, height, i) else old(buf[i])
  {
    SmoothedEntryBorder(ps, width, height, 0, h);
    SmoothedEntryBorder(ps, width, height, width - 1, h);
    buf[RowStart(width, h)] := ps[RowStart(width, h)];
    SmoothInterior(buf, ps, width, height, h);
    buf[RowStart(width, h) + width - 1] := ps[RowStart(width, h) + width - 1];
  }

  /** The smoothed entry at an interior grid point is its neighbourhood average. */
  lemma SmoothedEntryInterior(ps: seq<Vec3>, width: int, height: int, w: int, h: nat)
    requires |ps| == width * height && Interior(width, height, w, h)
    ensures 0 <= RowStart(width, h) + w < |ps|
    ensures SmoothedEntry(ps, width, height, RowStart(width, h) + w) == SmoothedAt(ps, width, height, w, h)
  {
    CellIndex(width, height, w, h);
  }

  /** The smoothed entry at a border grid point is a copy. */
  lemma SmoothedEntryBorder(ps: seq<Vec3>, width: int, height: int, w: int, h: nat)
    requires |ps| == width * height && 0 <= w < width && h < height && !Interior(width, height, w, h)
    ensures 0 <= RowStart(width, h) + w < |ps|
    ensures SmoothedEntry(ps, width, height, RowStart(width, h) + w) == ps[RowStart(width, h) + w]
  {
    CellIndex(width, height, w, h);
  }

  /**
   * Terrain::smoothedPositions: the first row copied, each middle row smoothed between
   * its copied end points, then the last row copied.
   */
  method SmoothedPositions(ps: seq<Vec3>, width: int, height: int) returns (out: seq<Vec3>)
    requires width > 0 && height > 0 && |ps| == width * height
    ensures out == SmoothedGrid(ps, width, height)
  {
    var buf := new Vec3[|ps|](_ => Zero3);
    CopyBorderRow(buf, ps, width, height, 0);
    var h := 1;
    while h < height - 1
      invariant 1 <= h <= if height >= 2 then height - 1 else 1
      invariant RowStart(width, h) <= buf.Length
      invariant forall i :: 0 <= i < RowStart(width, h) ==> buf[i] == SmoothedEntry(ps, width, height, i)
    {
      SmoothRow(buf, ps, width, height, h);
      h := h + 1;
    }
    CopyBorderRow(buf, ps, width, height, height - 1);
    RowStartIsProduct(width, height);
    out := buf[..];
  }

  /** The nine entries around an interior point are all in bounds. */
  lemma NeighbourhoodInRange(width: int, height: int, w: int, h: int)
    requires Interior(width, height, w, h)
    ensures 0 <= RowStart(width, h - 1) + w - 1 && RowStart(width, h - 1) + w + 1 < width * height
    ensures 0 <= RowStart(width, h) + w - 1 && RowStart(width, h) + w + 1 < width * height
    ensures 0 <= RowStart(width, h + 1) + w - 1 && RowStart(width, h + 1) + w + 1 < width * height
  {
    CellIndex(width, height, w - 1, h - 1);
    CellIndex(width, height, w + 1, h + 1);
  }

  /** Smoothing a flat neighbourhood gives back its value. */
  lemma SmoothedAtConstant(ps: seq<Vec3>, width: int, height: int, w: int, h: int, c: Vec3)
    requires |ps| == width * height && Interior(width, height, w, h)
    requires forall i :: 0 <= i < |ps| ==> ps[i] == c
    ensures SmoothedAt(ps, width, height, w, h) == c
  {
    NeighbourhoodInRange(width, height, w, h);
  }

  /** Smoothing a neighbourhood of heights within [lo, hi] gives a height within [lo, hi]. */
  lemma SmoothedAtInRange(ps: seq<Vec3>, width: int, height: int, w: int, h: int, lo: real, hi: real)
    requires |ps| == width * height && Interior(width, height, w, h)
    requires forall i :: 0 <= i < |ps| ==> lo <= ps[i].y <= hi
    ensures lo <= SmoothedAt(ps, width, height, w, h).y <= hi
  {
    NeighbourhoodInRange(width, height, w, h);
  }

  /** Smoothing never moves a height outside the range of the input heights. */
  lemma SmoothingKeepsHeightRange(ps: seq<Vec3>, width: int, height: int, lo: real, hi: real)
    requires width > 0 && height > 0 && |ps| == width * height
    requires forall i :: 0 <= i < |ps| ==> lo <= ps[i].y <= hi
    ensures forall i :: 0 <= i < |ps| ==> lo <= SmoothedGrid(ps, width, height)[i].y <= hi
  {
    forall i | 0 <= i < |ps|
      ensures lo <= SmoothedEntry(ps, width, height, i).y <= hi
    {
      IndexInGrid(width, height, i);
      if Interior(width, height, GridCol(width, i), GridRow(width, i)) {
        SmoothedAtInRange(ps, width, height, GridCol(width, i), GridRow(width, i), lo, hi);
      }
    }
  }

  /** A flat terrain (every position equal) is left unchanged by smoothing. */
  lemma SmoothingKeepsConstant(ps: seq<Vec3>, width: int, height: int, c: Vec3)
    requires width > 0 && height > 0 && |ps| == width * height
    requires forall i :: 0 <= i < |ps| ==> ps[i] == c
    ensures SmoothedGrid(ps, width, height) == ps
  {
    forall i | 0 <= i < |ps|
      ensures SmoothedEntry(ps, width, height, i) == ps[i]
    {
      IndexInGrid(width, height, i);
      if Interior(width, height, GridCol(width, i), GridRow(width, i)) {
        SmoothedAtConstant(ps, width, height, GridCol(width, i), GridRow(width, i), c);
      }
    }
  }

  /**
   * Positions laid out on a regular grid in the ground plane: one column further on adds sx
   * to x and keeps z, one row further on adds sz to z and keeps x, whatever the heights.
   */
  predicate GridSteps(ps: seq<Vec3>, width: int, height: int, sx: real, sz: real)
    requires |ps| == width * height
  {
    (forall w, h :: 0 <= w < width - 1 && 0 <= h < height ==>
       At(ps, width, height, w + 1, h).x == At(ps, width, height, w, h).x + sx
       && At(ps, width, height, w + 1, h).z == At(ps, width, height, w, h).z)
    && (forall w, h :: 0 <= w < width && 0 <= h < height - 1 ==>
          At(ps, width, height, w, h + 1).z == At(ps, width, height, w, h).z + sz
          && At(ps, width, height, w, h + 1).x == At(ps, width, height, w, h).x)
  }

  /** Smoothing a neighbourhood whose ground coordinates step evenly keeps the centre's x and z. */
  lemma SmoothedAtKeepsGround(ps: seq<Vec3>, width: int, height: int, sx: real, sz: real, w: int, h: int)
    requires |ps| == width * height && Interior(width, height, w, h)
    requires GridSteps(ps, width, height, sx, sz)
    ensures SmoothedAt(ps, width, height, w, h).x == At(ps, width, height, w, h).x
    ensures SmoothedAt(ps, width, height, w, h).z == At(ps, width, height, w, h).z
  {
  }

  /** One smoothing pass moves only heights when the ground coordinates step evenly. */
  lemma SmoothingKeepsGround(ps: seq<Vec3>, width: int, height: int, sx: real, sz: real)
    requires width > 0 && height > 0 && |ps| == width * height
    requires GridSteps(ps, width, height, sx, sz)
    ensures forall i :: 0 <= i < |ps| ==> SmoothedGrid(ps, width, height)[i].x == ps[i].x && SmoothedGrid(ps, width, height)[i].z == ps[i].z
  {
    forall i | 0 <= i < |ps|
      ensures SmoothedEntry(ps, width, height, i).x == ps[i].x && SmoothedEntry(ps, width, height, i).z == ps[i].z
    {
      IndexInGrid(width, height, i);
      if Interior(width, height, GridCol(width, i), GridRow(width, i)) {
        SmoothedAtKeepsGround(ps, width, height, sx, sz, GridCol(width, i), GridRow(width, i));
      }
    }
  }

  /** Two grids with the same ground coordinates step alike. */
  lemma SameGroundSteps(ps: seq<Vec3>, qs: seq<Vec3>, width: int, height: int, sx: real, sz: real)
    requires width > 0 && |ps| == width * height && |qs| == |ps|
    requires forall i :: 0 <= i < |ps| ==> qs[i].x == ps[i].x && qs[i].z == ps[i].z
    requires GridSteps(ps, width, height, sx, sz)
    ensures GridSteps(qs, width, height, sx, sz)
  {
    forall w, h | 0 <= w < width && 0 <= h < height
      ensures At(qs, width, height, w, h).x == At(ps, width, height, w, h).x
      ensures At(qs, width, height, w, h).z == At(ps, width, height, w, h).z
    {
      CellIndex(width, height, w, h);
    }
  }

  /** Grid point (w, h) is the entry at flat index RowStart(h) + w, which names its column and row. */
  lemma AtIndex(ps: seq<Vec3>, width: int, height: int, w: int, h: nat)
    requires |ps| == width * height && 0 <= w < width && h < height
    ensures 0 <= RowStart(width, h) + w < |ps| && At(ps, width, height, w, h) == ps[RowStart(width, h) + w]
    ensures GridRow(width, RowStart(width, h) + w) == h && GridCol(width, RowStart(width, h) + w) == w
  {
    CellIndex(width, height, w, h);
  }

  /** Grid point (w, h) of the raw grid is the raw position of pixel (w, h). */
  lemma RawAt(reds: seq<int>, size: Vec3, offset: Vec3, width: int, height: int, w: int, h: nat, k: int)
    requires width > 0 && height > 0 && |reds| == width * height && 0 <= w < width && h < height
    requires k == RowStart(width, h) + w
    ensures 0 <= k < |reds|
    ensures At(RawGrid(reds, size, offset, width, height, width * height), width, height, w, h)
            == RawPosition(size, offset, width, height, reds[k], w, h)
  {
    AtIndex(RawGrid(reds, size, offset, width, height, width * height), width, height, w, h);
    RawGridEntry(reds, size, offset, width, height, w, h, k);
  }

  /** Entry (w, h) of the raw grid, at flat index k, is the raw position of pixel (w, h). */
  lemma RawGridEntry(reds: seq<int>, size: Vec3, offset: Vec3, width: int, height: int, w: int, h: nat, k: int)
    requires width > 0 && height > 0 && |reds| == width * height && 0 <= w < width && h < height
    requires k == RowStart(width, h) + w
    ensures 0 <= k < width * height
    ensures RawGrid(reds, size, offset, width, height, width * height)[k] == RawPosition(size, offset, width, height, reds[k], w, h)
  {
    RawPositionOfIndex(size, offset, width, height, if 0 <= k < |reds| then reds[k] else 0, k, w, h);
    RawGridIndex(reds, size, offset, width, height, k);
  }

  /** Entry k of the raw grid is the raw position of its column and row. */
  lemma RawGridIndex(reds: seq<int>, size: Vec3, offset: Vec3, width: int, height: int, k: int)
    requires width > 0 && height > 0 && |reds| == width * height && 0 <= k < width * height
    ensures RawGrid(reds, size, offset, width, height, width * height)[k]
            == RawPosition(size, offset, width, height, reds[k], GridCol(width, k), GridRow(width, k))
  {
  }

  /** The raw position named by flat index k is the one of its column and row. */
  lemma RawPositionOfIndex(size: Vec3, offset: Vec3, width: int, height: int, red: int, k: int, w: int, h: nat)
    requires width > 0 && height > 0 && 0 <= w < width && h < height && k == RowStart(width, h) + w
    ensures 0 <= k < width * height
    ensures RawPosition(size, offset, width, height, red, GridCol(width, k), GridRow(width, k))
            == RawPosition(size, offset, width, height, red, w, h)
  {
    CellIndex(width, height, w, h);
  }

  /** The raw position one pixel further along a row or a column is one cell further along x or z. */
  lemma RawPositionSteps(size: Vec3, offset: Vec3, width: int, height: int, red: int, red': int, w: int, h: int)
    requires width > 0 && height > 0
    ensures RawPosition(size, offset, width, height, red', w + 1, h).x == RawPosition(size, offset, width, height, red, w, h).x + size.x / width as real
    ensures RawPosition(size, offset, width, height, red', w + 1, h).z == RawPosition(size, offset, width, height, red, w, h).z
    ensures RawPosition(size, offset, width, height, red', w, h + 1).z == RawPosition(size, offset, width, height, red, w, h).z + size.z / height as real
    ensures RawPosition(size, offset, width, height, red', w, h + 1).x == RawPosition(size, offset, width, height, red, w, h).x
  {
    var sx, sz := size.x / width as real, size.z / height as real;
    assert (w + 1) as real * sx == w as real * sx + sx;
    assert (h + 1) as real * sz == h as real * sz + sz;
  }

  /** The raw positions step by the cell size (size.x / W, size.z / H). */
  lemma RawGridSteps(reds: seq<int>, size: Vec3, offset: Vec3, width: int, height: int)
    requires width > 0 && height > 0 && |reds| == width * height
    ensures GridSteps(RawGrid(reds, size, offset, width, height, width * height), width, height,
                      size.x / width as real, size.z / height as real)
  {
    var ps := RawGrid(reds, size, offset, width, height, width * height);
    var sx, sz := size.x / width as real, size.z / height as real;
    forall w, h | 0 <= w < width - 1 && 0 <= h < height
      ensures At(ps, width, height, w + 1, h).x == At(ps, width, height, w, h).x + sx
      ensures At(ps, width, height, w + 1, h).z == At(ps, width, height, w, h).z
    {
      RawAt(reds, size, offset, width, height, w, h, RowStart(width, h) + w);
      RawAt(reds, size, offset, width, height, w + 1, h, RowStart(width, h) + w + 1);
      RawPositionSteps(size, offset, width, height, reds[RowStart(width, h) + w], reds[RowStart(width, h) + w + 1], w, h);
    }
    forall w, h | 0 <= w < width && 0 <= h < height - 1
      ensures At(ps, width, height, w, h + 1).z == At(ps, width, height, w, h).z + sz
      ensures At(ps, width, height, w, h + 1).x == At(ps, width, height, w, h).x
    {
      RawAt(reds, size, offset, width, height, w, h, RowStart(width, h) + w);
      RawAt(reds, size, offset, width, height, w, h + 1, RowStart(width, h + 1) + w);
      RawPositionSteps(size, offset, width, height, reds[RowStart(width, h) + w], reds[RowStart(width, h + 1) + w], w, h);
    }
  }

  /** `passes` rounds of smoothing (none when passes <= 0). */
  function SmoothedTimes(ps: seq<Vec3>, width: int, height: int, passes: int): (out: seq<Vec3>)
    requires width > 0 && height > 0 && |ps| == width * height
    ensures |out| == |ps|
    decreases passes
  {
    if passes <= 0 then ps
    else SmoothedGrid(SmoothedTimes(ps, width, height, passes - 1), width, height)
  }

  /**
   * The constructor's positions, raw or after any number of smoothing passes, step by the
   * cell size along both grid directions: smoothing moves only the heights.
   */
  lemma SmoothedRawSteps(reds: seq<int>, size: Vec3, offset: Vec3, width: int, height: int, passes: int)
    requires width > 0 && height > 0 && |reds| == width * height
    ensures GridSteps(SmoothedTimes(RawGrid(reds, size, offset, width, height, width * height), width, height, passes),
                      width, height, size.x / width as real, size.z / height as real)
  {
    RawGridSteps(reds, size, offset, width, height);
    SmoothedTimesSteps(RawGrid(reds, size, offset, width, height, width * height), width, height,
                       size.x / width as real, size.z / height as real, passes);
  }

  /** Any number of smoothing passes keeps every height within the input's range. */
  lemma {:induction false} SmoothedTimesKeepsHeightRange(ps: seq<Vec3>, width: int, height: int, passes: int, lo: real, hi: real)
    requires width > 0 && height > 0 && |ps| == width * height
    requires forall i :: 0 <= i < |ps| ==> lo <= ps[i].y <= hi
    ensures forall i :: 0 <= i < |ps| ==> lo <= SmoothedTimes(ps, width, height, passes)[i].y <= hi
    decreases passes
  {
    if passes > 0 {
      SmoothedTimesKeepsHeightRange(ps, width, height, passes - 1, lo, hi);
      SmoothingKeepsHeightRange(SmoothedTimes(ps, width, height, passes - 1), width, height, lo, hi);
    }
  }

  /** Any number of smoothing passes keeps the grid's steps. */
  lemma {:induction false} SmoothedTimesSteps(ps: seq<Vec3>, width: int, height: int, sx: real, sz: real, passes: int)
    requires width > 0 && height > 0 && |ps| == width * height
    requires GridSteps(ps, width, height, sx, sz)
    ensures GridSteps(SmoothedTimes(ps, width, height, passes), width, height, sx, sz)
    decreases passes
  {
    if passes > 0 {
      SmoothedTimesSteps(ps, width, height, sx, sz, passes - 1);
      SmoothingKeepsSteps(SmoothedTimes(ps, width, height, passes - 1), width, height, sx, sz);
    }
  }

  /** One smoothing pass keeps the grid's steps. */
  lemma SmoothingKeepsSteps(ps: seq<Vec3>, width: int, height: int, sx: real, sz: real)
    requires width > 0 && height > 0 && |ps| == width * height
    requires GridSteps(ps, width, height, sx, sz)
    ensures GridSteps(SmoothedGrid(ps, width, height), width, height, sx, sz)
  {
    SmoothingKeepsGround(ps, width, height, sx, sz);
    SameGroundSteps(ps, SmoothedGrid(ps, width, height), width, height, sx, sz);
  }

  /** The index of strip entry k: the vertex k / 2, or the one below it for odd k. */
  function StripIndex(width: int, k: int): int {
    if k % 2 == 0 then k / 2 else k / 2 + width
  }

  function StripIndices(width: int, n: int): (idx: seq<int>)
    requires n >= 0
    ensures |idx| == n
  {
    seq(n, k => StripIndex(width, k))
  }

  /** One row of the constructor's index loop: for each column w, the pair (w, h), (w, h + 1). */
  method PushRowIndices(idx0: seq<int>, width: int, height: int, h: nat) returns (idx: seq<int>)
    requires width >= 1 && h < height - 1
    requires |idx0| == 2 * RowStart(width, h)
    requires forall j :: 0 <= j < |idx0| ==> idx0[j] == StripIndex(width, j)
    ensures |idx| == 2 * RowStart(width, h + 1)
    ensures forall j :: 0 <= j < |idx| ==> idx[j] == StripIndex(width, j)
  {
    idx := idx0;
    var w := 0;
    while w < width
      invariant 0 <= w <= width
      invariant |idx| == 2 * (RowStart(width, h) + w)
      invariant forall j :: 0 <= j < |idx| ==> idx[j] == StripIndex(width, j)
    {
      CellIndex(width, height, w, h);
      CellIndex(width, height, w, h + 1);
      idx := idx + [VertexIndex(width, w, h)];
      idx := idx + [VertexIndex(width, w, h + 1)];
      w := w + 1;
    }
  }

  /** The constructor's index loop, row by row for h < H - 1. */
  method BuildIndices(width: int, height: int) returns (idx: seq<int>)
    requires width >= 1 && height >= 1
    ensures idx == StripIndices(width, 2 * (width * (height - 1)))
  {
    idx := [];
    var h := 0;
    while h < height - 1
      invariant 0 <= h <= height - 1
      invariant |idx| == 2 * RowStart(width, h)
      invariant forall j :: 0 <= j < |idx| ==> idx[j] == StripIndex(width, j)
    {
      idx := PushRowIndices(idx, width, height, h);
      h := h + 1;
    }
    RowStartIsProduct(width, height - 1);
  }

  /**
   * The index buffer: 2W(H-1) entries, each a vertex of the grid, where entries
   * 2(w + hW) and 2(w + hW) + 1 are the vertices (w, h) and (w, h + 1).
   */
  lemma StripIndicesShape(width: int, height: int)
    requires width >= 1 && height >= 1
    ensures var idx := StripIndices(width, 2 * (width * (height - 1)));
            && (forall k :: 0 <= k < |idx| ==> 0 <= idx[k] < width * height)
            && (forall w, h :: 0 <= w < width && 0 <= h < height - 1 ==>
                  2 * VertexIndex(width, w, h) + 1 < |idx|
                  && idx[2 * VertexIndex(width, w, h)] == VertexIndex(width, w, h)
                  && idx[2 * VertexIndex(width, w, h) + 1] == VertexIndex(width, w, h + 1))
  {
    var idx := StripIndices(width, 2 * (width * (height - 1)));
    StripIndicesInGrid(width, height);
    forall w, h | 0 <= w < width && 0 <= h < height - 1
      ensures 2 * VertexIndex(width, w, h) + 1 < |idx|
      ensures idx[2 * VertexIndex(width, w, h)] == VertexIndex(width, w, h)
      ensures idx[2 * VertexIndex(width, w, h) + 1] == VertexIndex(width, w, h + 1)
    {
      StripPair(width, height, w, h);
    }
  }

  /** Entries 2v and 2v + 1 of the buffer, for v the vertex (w, h), are (w, h) and (w, h + 1). */
  lemma StripPair(width: int, height: int, w: int, h: int)
    requires 0 <= w < width && 0 <= h < height - 1
    ensures 0 <= VertexIndex(width, w, h) < width * (height - 1)
    ensures StripIndex(width, 2 * VertexIndex(width, w, h)) == VertexIndex(width, w, h)
    ensures StripIndex(width, 2 * VertexIndex(width, w, h) + 1) == VertexIndex(width, w, h + 1)
  {
    CellIndex(width, height - 1, w, h);
    CellIndex(width, height, w, h + 1);
  }

  /** Every entry of the index buffer is a vertex of the grid. */
  lemma StripIndicesInGrid(width: int, height: int)
    requires width >= 1 && height >= 1
    ensures var idx := StripIndices(width, 2 * (width * (height - 1)));
            forall k :: 0 <= k < |idx| ==> 0 <= idx[k] < width * height
  {
    var n := width * (height - 1);
    assert n + width == width * height;
    forall k | 0 <= k < 2 * n
      ensures 0 <= StripIndex(width, k) < n + width
    {
    }
  }

  /**
   * QVector3D::normal as a function value: the unit normal of the plane through three
   * points. The vertex functions below take the normal function as a parameter, so that
   * the grid bookkeeping is proved apart from the arithmetic of normalisation.
   */
  function QNormal(sqrt: real -> real): (f: (Vec3, Vec3, Vec3) -> Vec3)
    requires IsSqrt(sqrt)
    ensures forall a, b, c :: f(a, b, c) == PlaneNormal(sqrt, a, b, c)
  {
    (a, b, c) => PlaneNormal(sqrt, a, b, c)
  }

  /**
   * The normal of vertex (w, h): the normal of the triangle (w, h), (w, h + 1), (w + 1, h),
   * except in the last column and the last row, where it is (0, 1, 0).
   */
  function NormalAt(normal: (Vec3, Vec3, Vec3) -> Vec3, ps: seq<Vec3>, width: int, height: int, w: int, h: int): Vec3 {
    if 0 <= w < width - 1 && 0 <= h < height - 1 then
      normal(At(ps, width, height, w, h), At(ps, width, height, w, h + 1), At(ps, width, height, w + 1, h))
    else UnitY
  }

  /** The normal of the vertex with flat index i. */
  function NormalOf(normal: (Vec3, Vec3, Vec3) -> Vec3, ps: seq<Vec3>, width: int, height: int, i: int): Vec3
    requires width > 0
  {
    NormalAt(normal, ps, width, height, GridCol(width, i), GridRow(width, i))
  }

  /** Vertex i of the terrain: position, normal, and texture coordinate (w, h). */
  function TerrainVertex(normal: (Vec3, Vec3, Vec3) -> Vec3, ps: seq<Vec3>, width: int, height: int, i: int): VertexP3fN3fT2f
    requires width > 0 && height > 0 && |ps| == width * height && 0 <= i < |ps|
  {
    VertexP3fN3fT2f(ps[i], NormalOf(normal, ps, width, height, i), TexCoordOf(width, i))
  }

  function TerrainVertices(normal: (Vec3, Vec3, Vec3) -> Vec3, ps: seq<Vec3>, width: int, height: int): (vs: seq<VertexP3fN3fT2f>)
    requires width > 0 && height > 0 && |ps| == width * height
    ensures |vs| == |ps|
  {
    seq(|ps|, i requires 0 <= i < |ps| => TerrainVertex(normal, ps, width, height, i))
  }

  /** The normal of grid point (w, h), at flat index RowStart(h) + w, is NormalAt(w, h). */
  lemma NormalOfCell(normal: (Vec3, Vec3, Vec3) -> Vec3, ps: seq<Vec3>, width: int, height: int, w: int, h: nat)
    requires 0 <= w < width
    ensures NormalOf(normal, ps, width, height, RowStart(width, h) + w) == NormalAt(normal, ps, width, height, w, h)
  {
    CellReadsBack(width, w, h);
  }

  /** Row h < H - 1 of the normal loop, up to the last column: the normal of the cell's first triangle. */
  method FillRowNormals(normal: (Vec3, Vec3, Vec3) -> Vec3, verts: array<VertexP3fN3fT2f>, ps: seq<Vec3>, width: int, height: int, h: nat)
    requires width > 0 && h < height - 1 && |ps| == width * height && verts.Length == |ps|
    modifies verts
    ensures RowStart(width, h) + width <= verts.Length
    ensures forall i :: 0 <= i < verts.Length ==>
              verts[i] == if RowStart(width, h) <= i < RowStart(width, h) + width - 1
                          then old(verts[i]).(normal := NormalOf(normal, ps, width, height, i)) else old(verts[i])
  {
    CellIndex(width, height, width - 1, h);
    var w := 0;
    while w < width - 1
      invariant 0 <= w <= width - 1
      invariant forall i :: 0 <= i < verts.Length ==>
                  verts[i] == if RowStart(width, h) <= i < RowStart(width, h) + w
                              then old(verts[i]).(normal := NormalOf(normal, ps, width, height, i)) else old(verts[i])
    {
      CellIndex(width, height, w, h);
      NormalOfCell(normal, ps, width, height, w, h);
      var n := normal(At(ps, width, height, w, h), At(ps, width, height, w, h + 1), At(ps, width, height, w + 1, h));
      verts[RowStart(width, h) + w] := verts[RowStart(width, h) + w].(normal := n);
      w := w + 1;
    }
  }

  /** The last row of the normal loops: every normal (0, 1, 0). */
  method FillLastRowNormals(normal: (Vec3, Vec3, Vec3) -> Vec3, verts: array<VertexP3fN3fT2f>, ps: seq<Vec3>, width: int, height: int)
    requires width > 0 && height > 0 && |ps| == width * height && verts.Length == |ps|
    modifies verts
    ensures RowStart(width, height - 1) + width == verts.Length
    ensures forall i :: 0 <= i < verts.Length ==>
              verts[i] == if RowStart(width, height - 1) <= i
                          then old(verts[i]).(normal := NormalOf(normal, ps, width, height, i)) else old(verts[i])
  {
    LastRowEnds(width, height);
    var w := 0;
    while w < width
      invariant 0 <= w <= width
      invariant forall i :: 0 <= i < verts.Length ==>
                  verts[i] == if RowStart(width, height - 1) <= i < RowStart(width, height - 1) + w
                              then old(verts[i]).(normal := NormalOf(normal, ps, width, height, i)) else old(verts[i])
    {
      NormalOfCell(normal, ps, width, height, w, height - 1);
      verts[RowStart(width, height - 1) + w] := verts[RowStart(width, height - 1) + w].(normal := UnitY);
      w := w + 1;
    }
  }

  /** The constructor's normal loops: rows 0 .. H-2 with the last column up, then the last row up. */
  method FillNormals(normal: (Vec3, Vec3, Vec3) -> Vec3, verts: array<VertexP3fN3fT2f>, ps: seq<Vec3>, width: int, height: int)
    requires width > 0 && height > 0 && |ps| == width * height && verts.Length == |ps|
    modifies verts
    ensures forall i :: 0 <= i < verts.Length ==>
              verts[i] == old(verts[i]).(normal := NormalOf(normal, ps, width, height, i))
  {
    var h := 0;
    while h < height - 1
      invariant 0 <= h <= if height >= 2 then height - 1 else 0
      invariant forall i :: 0 <= i < verts.Length ==>
                  verts[i] == if i < RowStart(width, h)
                              then old(verts[i]).(normal := NormalOf(normal, ps, width, height, i)) else old(verts[i])
    {
      FillRowNormals(normal, verts, ps, width, height, h);
      CellIndex(width, height, width - 1, h);
      NormalOfCell(normal, ps, width, height, width - 1, h);
      verts[RowStart(width, h) + width - 1] := verts[RowStart(width, h) + width - 1].(normal := UnitY);
      h := h + 1;
    }
    FillLastRowNormals(normal, verts, ps, width, height);
  }

  /** The texture coordinate of the vertex with flat index i: its grid point. */
  function TexCoordOf(width: int, i: int): Vec2
    requires width > 0
  {
    Vec2(GridCol(width, i) as real, GridRow(width, i) as real)
  }

  /** Row h of the texture-coordinate loop: vertex (w, h) gets (w, h). */
  method FillRowTexCoords(verts: array<VertexP3fN3fT2f>, width: int, height: int, h: nat)
    requires width > 0 && h < height && verts.Length == width * height
    modifies verts
    ensures RowStart(width, h) + width <= verts.Length
    ensures forall i :: 0 <= i < verts.Length ==>
              verts[i] == if RowStart(width, h) <= i < RowStart(width, h) + width
                          then old(verts[i]).(texCoord := TexCoordOf(width, i)) else old(verts[i])
  {
    CellIndex(width, height, width - 1, h);
    var w := 0;
    while w < width
      invariant 0 <= w <= width
      invariant forall i :: 0 <= i < verts.Length ==>
                  verts[i] == if RowStart(width, h) <= i < RowStart(width, h) + w
                              then old(verts[i]).(texCoord := TexCoordOf(width, i)) else old(verts[i])
    {
      CellIndex(width, height, w, h);
      verts[RowStart(width, h) + w] := verts[RowStart(width, h) + w].(texCoord := Vec2(w as real, h as real));
      w := w + 1;
    }
  }

  /** The constructor's texture-coordinate loop. */
  method FillTexCoords(verts: array<VertexP3fN3fT2f>, width: int, height: int)
    requires width > 0 && height > 0 && verts.Length == width * height
    modifies verts
    ensures forall i :: 0 <= i < verts.Length ==> verts[i] == old(verts[i]).(texCoord := TexCoordOf(width, i))
  {
    var h := 0;
    while h < height
      invariant 0 <= h <= height
      invariant forall i :: 0 <= i < verts.Length ==>
                  verts[i] == if i < RowStart(width, h) then old(verts[i]).(texCoord := TexCoordOf(width, i)) else old(verts[i])
    {
      FillRowTexCoords(verts, width, height, h);
      h := h + 1;
    }
    RowStartIsProduct(width, height);
  }

  /**
   * The Terrain constructor, with the heightmap given as its row-major red values:
   * factor (W / size.x, H / size.z), smoothed positions, normals, texture coordinates
   * and the strip index buffer.
   */
  method Build(sqrt: real -> real, reds: seq<int>, width: int, height: int, size: Vec3, offset: Vec3,
               smoothingPasses: int) returns (t: TerrainData)
    requires IsSqrt(sqrt) && width >= 1 && height >= 1 && |reds| == width * height
    requires size.x != 0.0 && size.z != 0.0
    ensures Valid(t) && t.mapWidth == width && t.mapHeight == height && t.size == size && t.offset == offset
    ensures t.toMapFactor == Vec2(width as real / size.x, height as real / size.z)
    ensures t.vertices == TerrainVertices(QNormal(sqrt), SmoothedTimes(RawGrid(reds, size, offset, width, height, width * height),
                                                              width, height, smoothingPasses), width, height)
    ensures t.indices == StripIndices(width, 2 * (width * (height - 1)))
  {
    var ps := RawPositions(reds, size, offset, width, height);
    ghost var raw := ps;
    var i := 0;
    while i < smoothingPasses
      invariant smoothingPasses >= 0 ==> 0 <= i <= smoothingPasses
      invariant smoothingPasses < 0 ==> i == 0
      invariant ps == SmoothedTimes(raw, width, height, i)
    {
      ps := SmoothedPositions(ps, width, height);
      i := i + 1;
    }
    assert ps == SmoothedTimes(raw, width, height, smoothingPasses);
    var verts := new VertexP3fN3fT2f[width * height](_ => DefaultP3fN3fT2f());
    i := 0;
    while i < verts.Length
      invariant 0 <= i <= verts.Length
      invariant forall k :: 0 <= k < i ==> verts[k] == DefaultP3fN3fT2f().(position := ps[k])
      invariant forall k :: i <= k < verts.Length ==> verts[k] == DefaultP3fN3fT2f()
    {
      verts[i] := verts[i].(position := ps[i]);
      i := i + 1;
    }
    FillNormals(QNormal(sqrt), verts, ps, width, height);
    FillTexCoords(verts, width, height);
    assert verts[..] == TerrainVertices(QNormal(sqrt), ps, width, height);
    var indices := BuildIndices(width, height);
    t := TerrainData(width, height, size, offset, Vec2(width as real / size.x, height as real / size.z), verts[..], indices);
  }

  /** In the last column and the last row every normal points straight up. */
  lemma BorderNormalsUp(normal: (Vec3, Vec3, Vec3) -> Vec3, ps: seq<Vec3>, width: int, height: int, w: int, h: int)
    requires width > 0 && height > 0 && |ps| == width * height
    requires 0 <= w < width && 0 <= h < height && (w == width - 1 || h == height - 1)
    ensures 0 <= VertexIndex(width, w, h) < |ps|
            && TerrainVertices(normal, ps, width, height)[VertexIndex(width, w, h)].normal == UnitY
  {
    CellIndex(width, height, w, h);
  }
}

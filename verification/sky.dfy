/**
 * Sky: the time of day, the sky colour read from the bottom row of the dome image, the light
 * factors interpolated by the sun's height, and the curved cloud plane mesh. The sun's
 * direction (a rotation by the time-of-day angle), cosf and the dome image row are inputs.
 */
module Sky {
  import opened Math3D
  import opened Vertex

  /** The settings read from the sky's ini file; DefaultConfig holds the fallback values. */
  datatype SkyConfig = SkyConfig(
    diffuseDay: real, diffuseNight: real, diffuseMax: real,
    specularDay: real, specularNight: real, specularMax: real,
    ambientDay: real, ambientNight: real, ambientMax: real,
    cloudScale: real, cloudCurvature: real, cloudOffset: real)

  const DefaultConfig := SkyConfig(3.0, 0.2, 2.0, 2.0, 0.3, 2.0, 0.3, 0.1, 0.2, 10.0, 1.5, 1.0)

  /** The cloud plane has CloudRes × CloudRes vertices. */
  const CloudRes: int := 10

  /** setTimeOfDay: a value above 1 or below 0 keeps only its fractional part, x - floor(x). */
  function WrapTime(t: real): (r: real)
    ensures 0.0 <= r <= 1.0
    ensures r == 1.0 <==> t == 1.0
    ensures 0.0 <= t <= 1.0 ==> r == t
    ensures (t - r).Floor as real == t - r
  {
    if t > 1.0 || t < 0.0 then t - Floor(t) as real else t
  }

  /** Wrapping twice is wrapping once. */
  lemma WrapTimeIdempotent(t: real)
    ensures WrapTime(WrapTime(t)) == WrapTime(t)
  {
  }

  /** Interpolation::linear: a·(1 - w) + b·w. */
  function Linear(a: real, b: real, w: real): (r: real)
    ensures w == 0.0 ==> r == a
    ensures w == 1.0 ==> r == b
  {
    a * (1.0 - w) + b * w
  }

  /** Within [0, 1] the interpolation stays between its end points. */
  lemma LinearBetween(a: real, b: real, w: real)
    requires 0.0 <= w <= 1.0
    ensures a <= b ==> a <= Linear(a, b, w) <= b
    ensures b <= a ==> b <= Linear(a, b, w) <= a
  {
    assert Linear(a, b, w) == a + (b - a) * w;
    if a <= b {
      NonNegativeProduct(b - a, w);
      NonNegativeProduct(b - a, 1.0 - w);
    } else {
      NonNegativeProduct(a - b, w);
      NonNegativeProduct(a - b, 1.0 - w);
    }
  }

  function Linear4(a: Vec4, b: Vec4, w: real): Vec4 {
    Vec4(Linear(a.x, b.x, w), Linear(a.y, b.y, w), Linear(a.z, b.z, w), Linear(a.w, b.w, w))
  }

  /** qMin-style cap: the value, but no more than max. */
  function Capped(value: real, max: real): (r: real)
    ensures r <= max && r <= value && (r == value || r == max)
  {
    if value > max then max else value
  }

  /** The two dome-image columns around skyMapTime = timeOfDay·width - 0.5, each wrapped once into the row. */
  function Columns(timeOfDay: real, width: int): (c: (int, int))
  {
    var xA := Floor(timeOfDay * width as real - 0.5);
    var xA' := if xA < 0 then xA + width else xA;
    var xB := xA' + 1;
    (xA', if xB >= width then xB - width else xB)
  }

  /** For a time of day in [0, 1] both columns lie in the image row, and xB is the column after xA, cyclically. */
  lemma ColumnsInRange(timeOfDay: real, width: int)
    requires 0.0 <= timeOfDay <= 1.0 && width >= 1
    ensures var (xA, xB) := Columns(timeOfDay, width);
      0 <= xA < width && 0 <= xB < width && xB == (xA + 1) % width
  {
    var w := width as real;
    NonNegativeProduct(timeOfDay, w);
    NonNegativeProduct(1.0 - timeOfDay, w);
    assert 0.0 <= timeOfDay * w <= w;
  }

  /**
   * The sky's base colour: the two dome columns around the time of day, interpolated by the
   * fractional part of skyMapTime.
   */
  function SkyColor(timeOfDay: real, domeRow: seq<Vec4>): (c: Vec4)
    requires 0.0 <= timeOfDay <= 1.0 && |domeRow| >= 1
    ensures var (xA, xB) := Columns(timeOfDay, |domeRow|);
      0 <= xA < |domeRow| && 0 <= xB < |domeRow| && Blend4(c, domeRow[xA], domeRow[xB])
  {
    ColumnsInRange(timeOfDay, |domeRow|);
    var (xA, xB) := Columns(timeOfDay, |domeRow|);
    var t := timeOfDay * |domeRow| as real - 0.5;
    var w := t - Floor(t) as real;
    var a, b := domeRow[xA], domeRow[xB];
    LinearBetween(a.x, b.x, w);
    LinearBetween(a.y, b.y, w);
    LinearBetween(a.z, b.z, w);
    LinearBetween(a.w, b.w, w);
    Linear4(a, b, w)
  }

  /** v lies between a and b. */
  predicate Between(v: real, a: real, b: real) {
    (a <= v <= b) || (b <= v <= a)
  }

  /** Every channel of c lies between the same channel of a and of b. */
  predicate Blend4(c: Vec4, a: Vec4, b: Vec4) {
    Between(c.x, a.x, b.x) && Between(c.y, a.y, b.y) && Between(c.z, a.z, b.z) && Between(c.w, a.w, b.w)
  }

  /** The three light factors, in the order diffuse, specular, ambient. */
  datatype Factors = Factors(diffuse: real, specular: real, ambient: real)

  /** Each factor interpolated from its day value to its night value by (sunY + 1)/2 and capped at its maximum. */
  function LightFactors(cfg: SkyConfig, sunY: real): (f: Factors)
    ensures f.diffuse <= cfg.diffuseMax && f.specular <= cfg.specularMax && f.ambient <= cfg.ambientMax
    ensures var w := (sunY + 1.0) * 0.5;
      && f.diffuse == Capped(Linear(cfg.diffuseDay, cfg.diffuseNight, w), cfg.diffuseMax)
      && f.specular == Capped(Linear(cfg.specularDay, cfg.specularNight, w), cfg.specularMax)
      && f.ambient == Capped(Linear(cfg.ambientDay, cfg.ambientNight, w), cfg.ambientMax)
  {
    var w := (sunY + 1.0) * 0.5;
    Factors(Capped(Linear(cfg.diffuseDay, cfg.diffuseNight, w), cfg.diffuseMax),
            Capped(Linear(cfg.specularDay, cfg.specularNight, w), cfg.specularMax),
            Capped(Linear(cfg.ambientDay, cfg.ambientNight, w), cfg.ambientMax))
  }

  /**
   * The factors as Sky.cpp computes them: the specular guard tests and caps the diffuse factor
   * again, against the specular maximum, and never caps the specular factor.
   */
  function LightFactorsAsWritten(cfg: SkyConfig, sunY: real): (f: Factors)
    ensures f.diffuse <= cfg.diffuseMax && f.diffuse <= cfg.specularMax && f.ambient <= cfg.ambientMax
    ensures f.specular == Linear(cfg.specularDay, cfg.specularNight, (sunY + 1.0) * 0.5)
    ensures f.ambient == LightFactors(cfg, sunY).ambient
  {
    var w := (sunY + 1.0) * 0.5;
    var diffuse := Capped(Linear(cfg.diffuseDay, cfg.diffuseNight, w), cfg.diffuseMax);
    Factors(if diffuse > cfg.specularMax then cfg.specularMax else diffuse,
            Linear(cfg.specularDay, cfg.specularNight, w),
            Capped(Linear(cfg.ambientDay, cfg.ambientNight, w), cfg.ambientMax))
  }

  /**
   * With a configured specularFactorDay of 3 (above its maximum of 2) and the sun straight down,
   * the specular factor as written is 3, beyond the cap the corrected factors keep.
   */
  lemma SpecularFactorUncapped()
    ensures var cfg := DefaultConfig.(specularDay := 3.0);
      && LightFactorsAsWritten(cfg, -1.0).specular == 3.0 > cfg.specularMax
      && LightFactors(cfg, -1.0).specular == cfg.specularMax
  {
  }

  /** The as-written diffuse factor is also held under the specular maximum; the corrected one only under its own. */
  lemma DiffuseCappedTwice(cfg: SkyConfig, sunY: real)
    ensures LightFactorsAsWritten(cfg, sunY).diffuse <= cfg.specularMax
    ensures LightFactorsAsWritten(cfg, sunY).diffuse == Capped(LightFactors(cfg, sunY).diffuse, cfg.specularMax)
  {
  }

  /** The cloud plane vertex at grid point (x, z): a curved sheet spanning ±scale, texture coordinates in [-0.5, 0.5]. */
  function CloudVertex(cfg: SkyConfig, cos: real -> real, pi: real, x: int, z: int): (v: VertexP3fT2f)
    requires 0 <= x < CloudRes && 0 <= z < CloudRes
    ensures -0.5 <= v.texCoord.x <= 0.5 && -0.5 <= v.texCoord.y <= 0.5
    ensures x == 0 ==> v.texCoord.x == -0.5
    ensures x == CloudRes - 1 ==> v.texCoord.x == 0.5
  {
    var divX := (x as real / (CloudRes - 1) as real) * 2.0 - 1.0;
    var divZ := (z as real / (CloudRes - 1) as real) * 2.0 - 1.0;
    var a := divX * (pi / 2.0);
    var b := divZ * (pi / 2.0);
    VertexP3fT2f(
      Vec3(cfg.cloudScale * divX, cfg.cloudOffset - (2.0 - (cos(a) + cos(b))) * cfg.cloudCurvature, cfg.cloudScale * divZ),
      Vec2(divX / 2.0, divZ / 2.0))
  }

  /** The first index of the triangle strip for one slice of the cloud plane. */
  function StripStart(slice: int): int {
    2 * CloudRes * slice
  }

  /** The strip indices: in slice z, column x gives the vertex in row z and then the one in row z + 1. */
  ghost predicate StripIndices(idx: seq<int>)
    requires |idx| == 2 * (CloudRes - 1) * CloudRes
  {
    forall z, x :: 0 <= z < CloudRes - 1 && 0 <= x < CloudRes ==> StripPair(idx, x, z)
  }

  /** The vertex of the cloud grid at column x, row z. */
  function GridVertex(x: int, z: int): int {
    x + z * CloudRes
  }

  /** Column x of slice z is stored at 2·(x + res·z): the vertex of row z, then that of row z + 1. */
  ghost predicate StripPair(idx: seq<int>, x: int, z: int)
    requires 0 <= z < CloudRes - 1 && 0 <= x < CloudRes && |idx| == 2 * (CloudRes - 1) * CloudRes
  {
    var k := 2 * (x + CloudRes * z);
    idx[k] == GridVertex(x, z) && idx[k + 1] == GridVertex(x, z + 1)
  }

  /**
   * Drawing slice s as a strip of 2·CloudRes indices from StripStart(s) zig-zags between rows
   * s and s + 1: its j-th index is column j/2 of row s for even j, of row s + 1 for odd j.
   */
  lemma StripZigZags(idx: seq<int>, slice: int, j: int)
    requires |idx| == 2 * (CloudRes - 1) * CloudRes && StripIndices(idx)
    requires 0 <= slice < CloudRes - 1 && 0 <= j < 2 * CloudRes
    ensures StripStart(slice) + j < |idx|
    ensures idx[StripStart(slice) + j] == j / 2 + (slice + j % 2) * CloudRes
  {
    var x := j / 2;
    assert StripPair(idx, x, slice);
    assert StripStart(slice) + j == 2 * (x + CloudRes * slice) + j % 2;
  }

  class Sky {
    const cfg: SkyConfig
    var timeOfDay: real
    var sunDirection: Vec3
    var baseColor: Vec4
    var diffuse: Vec3
    var specular: Vec3
    var ambient: Vec3
    const cloudVertices: array<VertexP3fT2f>
    const cloudIndices: array<int>

    ghost predicate Valid()
      reads this
    {
      0.0 <= timeOfDay <= 1.0
      && cloudVertices.Length == CloudRes * CloudRes
      && cloudIndices.Length == 2 * (CloudRes - 1) * CloudRes
    }

    /** A new sky starts at time 0 with the cloud plane mesh built. */
    constructor (cfg: SkyConfig, cos: real -> real, pi: real)
      ensures Valid() && this.cfg == cfg && timeOfDay == 0.0
      ensures forall x, z :: 0 <= x < CloudRes && 0 <= z < CloudRes ==> cloudVertices[x + z * CloudRes] == CloudVertex(cfg, cos, pi, x, z)
      ensures StripIndices(cloudIndices[..])
      ensures forall k :: 0 <= k < cloudIndices.Length ==> 0 <= cloudIndices[k] < cloudVertices.Length
    {
      this.cfg := cfg;
      timeOfDay := 0.0;
      var vs := BuildCloudVertices(cfg, cos, pi);
      var idx := BuildCloudIndices();
      cloudVertices, cloudIndices := vs, idx;
    }

    /** The cloud vertex grid, row by row. */
    static method BuildCloudVertices(cfg: SkyConfig, cos: real -> real, pi: real) returns (vs: array<VertexP3fT2f>)
      ensures fresh(vs) && vs.Length == CloudRes * CloudRes
      ensures forall x, z :: 0 <= x < CloudRes && 0 <= z < CloudRes ==> vs[x + z * CloudRes] == CloudVertex(cfg, cos, pi, x, z)
    {
      vs := new VertexP3fT2f[CloudRes * CloudRes](_ => DefaultP3fT2f());
      var z := 0;
      while z < CloudRes
        invariant 0 <= z <= CloudRes
        invariant forall x, z' :: 0 <= x < CloudRes && 0 <= z' < z ==> vs[x + z' * CloudRes] == CloudVertex(cfg, cos, pi, x, z')
      {
        var x := 0;
        while x < CloudRes
          invariant 0 <= x <= CloudRes
          invariant forall x', z' :: 0 <= x' < CloudRes && 0 <= z' < z ==> vs[x' + z' * CloudRes] == CloudVertex(cfg, cos, pi, x', z')
          invariant forall x' :: 0 <= x' < x ==> vs[x' + z * CloudRes] == CloudVertex(cfg, cos, pi, x', z)
        {
          vs[x + z * CloudRes] := CloudVertex(cfg, cos, pi, x, z);
          x := x + 1;
        }
        z := z + 1;
      }
    }

    /**
     * The strip indices: for each slice z and column x, the vertex in row z and then the one
     * below it in row z + 1.
     */
    static method BuildCloudIndices() returns (idx: array<int>)
      ensures fresh(idx) && idx.Length == 2 * (CloudRes - 1) * CloudRes
      ensures StripIndices(idx[..])
      ensures forall k :: 0 <= k < idx.Length ==> 0 <= idx[k] < CloudRes * CloudRes
    {
      idx := new int[2 * (CloudRes - 1) * CloudRes];
      var z := 0;
      while z < CloudRes - 1
        invariant 0 <= z <= CloudRes - 1
        invariant forall z', x :: 0 <= z' < z && 0 <= x < CloudRes ==> StripPair(idx[..], x, z')
        invariant forall k :: 0 <= k < 2 * CloudRes * z ==> 0 <= idx[k] < CloudRes * CloudRes
      {
        FillStrip(idx, z);
        z := z + 1;
      }
    }

    /** One slice of the strip indices: 2·CloudRes entries from 2·CloudRes·z on. */
    static method FillStrip(idx: array<int>, z: int)
      requires idx.Length == 2 * (CloudRes - 1) * CloudRes && 0 <= z < CloudRes - 1
      modifies idx
      ensures forall x :: 0 <= x < CloudRes ==> StripPair(idx[..], x, z)
      ensures forall k :: 0 <= k < idx.Length && !(2 * CloudRes * z <= k < 2 * CloudRes * (z + 1)) ==> idx[k] == old(idx[k])
      ensures forall k :: 2 * CloudRes * z <= k < 2 * CloudRes * (z + 1) ==> 0 <= idx[k] < CloudRes * CloudRes
      ensures forall z', x :: 0 <= z' < CloudRes - 1 && z' != z && 0 <= x < CloudRes && old(StripPair(idx[..], x, z')) ==> StripPair(idx[..], x, z')
    {
      var x := 0;
      while x < CloudRes
        invariant 0 <= x <= CloudRes
        invariant forall x' :: 0 <= x' < x ==>
          idx[2 * (x' + CloudRes * z)] == GridVertex(x', z) && idx[2 * (x' + CloudRes * z) + 1] == GridVertex(x', z + 1)
        invariant forall k :: 0 <= k < idx.Length && !(2 * CloudRes * z <= k < 2 * CloudRes * z + 2 * x) ==> idx[k] == old(idx[k])
        invariant forall k :: 2 * CloudRes * z <= k < 2 * CloudRes * z + 2 * x ==> 0 <= idx[k] < CloudRes * CloudRes
      {
        idx[2 * (x + CloudRes * z)] := GridVertex(x, z);
        idx[2 * (x + CloudRes * z) + 1] := GridVertex(x, z + 1);
        x := x + 1;
      }
    }

    /** setTimeOfDay: stores the time wrapped into [0, 1]. */
    method SetTimeOfDay(t: real)
      requires Valid()
      modifies this`timeOfDay
      ensures Valid() && timeOfDay == WrapTime(t)
    {
      timeOfDay := t;
      if timeOfDay > 1.0 {
        timeOfDay := timeOfDay - Floor(timeOfDay) as real;
      } else if timeOfDay < 0.0 {
        timeOfDay := timeOfDay - Floor(timeOfDay) as real;
      }
    }

    /**
     * updateSelf: the sun direction, the base colour interpolated between the two dome
     * columns around the time of day, and the light colours scaled by the factors as Sky.cpp
     * computes them (the specular factor uncapped, the diffuse one capped twice).
     * `domeRow` is the bottom row of the dome image as colours in [0, 1].
     */
    method UpdateSelf(sqrt: real -> real, sunDir: Vec3, domeRow: seq<Vec4>)
      requires Valid() && IsSqrt(sqrt) && |domeRow| >= 1
      modifies this`sunDirection, this`baseColor, this`diffuse, this`specular, this`ambient
      ensures Valid() && sunDirection == sunDir && baseColor == SkyColor(timeOfDay, domeRow)
      ensures var f := LightFactorsAsWritten(cfg, sunDir.y);
        diffuse == Scale(Xyz(baseColor), f.diffuse) && specular == Scale(Xyz(baseColor), f.specular)
        && ambient == Scale(Normalized(sqrt, Xyz(baseColor)), f.ambient)
    {
      sunDirection := sunDir;
      baseColor := SkyColor(timeOfDay, domeRow);
      var f := LightFactorsAsWritten(cfg, sunDirection.y);
      diffuse := Scale(Xyz(baseColor), f.diffuse);
      specular := Scale(Xyz(baseColor), f.specular);
      ambient := Scale(Normalized(sqrt, Xyz(baseColor)), f.ambient);
    }
  }
}

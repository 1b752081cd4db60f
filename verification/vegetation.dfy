/**
 * Vegetation (forests and grass): instanced models scattered at random over a disc of the
 * terrain. Each instance is placed by drawing random points in the unit circle, scaling
 * them to the vegetation's radii and dropping them onto the terrain; candidates under water
 * are redrawn. A forest gives up (keeping the instances placed so far) once a single
 * instance has needed more than 1000 draws; grass checks the same bound but never counts
 * its draws, so it keeps drawing until a dry candidate comes. Vegetation is drawn only when
 * its priority passes the quality gate.
 *
 * The random draws, the terrain height and the per-instance scale and rotation are inputs:
 * `draws(k)` is the k-th point drawn in the unit circle, `site.height` the terrain height
 * below a world point, and `shape(i, spot)` the scale-and-rotation matrix of instance i
 * standing at `spot`. The placement itself is stated over `cand(k)`, the candidate position
 * of the k-th draw (`Candidates` ties the two together).
 */
module Vegetation {
  import opened Math3D
  import opened Wrappers
  import opened TerrainMap

  /** Where vegetation is placed: the disc's centre and radii, and the terrain below it. */
  datatype Site = Site(center: Vec2, radi: Vec2, height: Vec2 -> real)

  /** The most draws one instance may take; the next draw makes the placement give up. */
  const MaxTries: nat := 1000

  /** The candidate position for a draw r: scaled to the radii and 1 below the terrain surface. */
  function Candidate(site: Site, r: Vec2): Vec3 {
    var x := site.center.x + r.x * site.radi.x;
    var z := site.center.y + r.y * site.radi.y;
    Vec3(x, site.height(Vec2(x, z)) - 1.0, z)
  }

  /** The candidate positions of all the draws, in order. */
  function Candidates(site: Site, draws: nat -> Vec2): nat -> Vec3 {
    (k: nat) => Candidate(site, draws(k))
  }

  /** The placement loop redraws while the candidate is below the water level. */
  predicate Dry(waterHeight: real, p: Vec3) {
    p.y >= waterHeight
  }

  /**
   * The search for the spot of an instance whose first draw is `first`, continuing at draw
   * k (so k - first draws were made): each iteration draws, counts the try, gives up once
   * more than MaxTries draws were made, and otherwise stops at a dry candidate. The result
   * is the index of the draw used.
   */
  function Search(cand: nat -> Vec3, water: real, first: nat, k: nat): Option<nat>
    requires first <= k <= first + MaxTries
    decreases first + MaxTries - k
  {
    if k - first + 1 > MaxTries then None
    else if Dry(water, cand(k)) then Some(k)
    else Search(cand, water, first, k + 1)
  }

  /**
   * The search finds the first dry candidate among the draws it may still use, and gives
   * up exactly when all of them are under water.
   */
  lemma {:induction false} SearchFindsFirstDry(cand: nat -> Vec3, water: real, first: nat, k: nat)
    requires first <= k <= first + MaxTries
    ensures match Search(cand, water, first, k)
            case Some(j) =>
              k <= j < first + MaxTries && Dry(water, cand(j))
              && forall m :: k <= m < j ==> !Dry(water, cand(m))
            case None =>
              forall m :: k <= m < first + MaxTries ==> !Dry(water, cand(m))
    decreases first + MaxTries - k
  {
    if k - first + 1 <= MaxTries && !Dry(water, cand(k)) {
      SearchFindsFirstDry(cand, water, first, k + 1);
    }
  }

  /**
   * The spots of up to `number` instances, the search for the first starting at draw k:
   * each search starts at the draw after the previous spot's; a search that gives up ends
   * the placement.
   */
  function Spots(cand: nat -> Vec3, water: real, number: nat, k: nat): seq<Vec3>
    decreases number
  {
    if number == 0 then []
    else
      match Search(cand, water, k, k)
      case None => []
      case Some(j) => [cand(j)] + Spots(cand, water, number - 1, j + 1)
  }

  /** The instance matrices for the spots: translated to the spot, then shaped. */
  function Instances(spots: seq<Vec3>, shape: (nat, Vec3) -> Mat4): (ms: seq<Mat4>)
    ensures |ms| == |spots|
  {
    seq(|spots|, i requires 0 <= i < |spots| => Compose(Translation(spots[i]), shape(i, spots[i])))
  }

  /** MaxTries consecutive candidates from draw `start` on are all under water. */
  predicate Flooded(cand: nat -> Vec3, water: real, start: nat) {
    forall m :: start <= m < start + MaxTries ==> !Dry(water, cand(m))
  }

  /** At most `number` instances are placed. */
  lemma {:induction false} SpotsAtMostNumber(cand: nat -> Vec3, water: real, number: nat, k: nat)
    ensures |Spots(cand, water, number, k)| <= number
    decreases number
  {
    if number > 0 && Search(cand, water, k, k).Some? {
      SpotsAtMostNumber(cand, water, number - 1, Search(cand, water, k, k).value + 1);
    }
  }

  /** Every placed instance stands on dry ground, at the candidate of a draw from k on. */
  lemma {:induction false} SpotsAreDry(cand: nat -> Vec3, water: real, number: nat, k: nat)
    ensures forall p :: p in Spots(cand, water, number, k) ==> Dry(water, p) && exists m :: k <= m && p == cand(m)
    decreases number
  {
    if number > 0 && Search(cand, water, k, k).Some? {
      var j := Search(cand, water, k, k).value;
      SearchFindsFirstDry(cand, water, k, k);
      SpotsAreDry(cand, water, number - 1, j + 1);
    }
  }

  /** Fewer than `number` instances are placed only when some instance met a flooded run of draws. */
  lemma {:induction false} ShortOnlyWhenFlooded(cand: nat -> Vec3, water: real, number: nat, k: nat)
      returns (start: nat)
    requires |Spots(cand, water, number, k)| < number
    ensures k <= start && Flooded(cand, water, start)
    decreases number
  {
    SearchFindsFirstDry(cand, water, k, k);
    if Search(cand, water, k, k).None? {
      start := k;
    } else {
      var j := Search(cand, water, k, k).value;
      start := ShortOnlyWhenFlooded(cand, water, number - 1, j + 1);
    }
  }

  /** Every candidate is dry: then exactly `number` instances are placed, one per draw. */
  lemma {:induction false} DryGroundPlacesAll(cand: nat -> Vec3, water: real, number: nat, k: nat)
    requires forall m :: k <= m ==> Dry(water, cand(m))
    ensures Spots(cand, water, number, k) == seq(number, i requires 0 <= i => cand(k + i))
    decreases number
  {
    if number > 0 {
      assert Search(cand, water, k, k) == Some(k);
      DryGroundPlacesAll(cand, water, number - 1, k + 1);
    }
  }

  /** A draw inside the unit circle. */
  predicate InUnitCircle(r: Vec2) {
    r.x * r.x + r.y * r.y <= 1.0
  }

  function Max(a: real, b: real): real { if a <= b then b else a }

  lemma SquareBelow(a: real, m: real)
    requires 0.0 <= a <= m
    ensures a * a <= m * m
  {
    NonNegativeProduct(m - a, m + a);
  }

  /** A point horizontally within the larger radius of the site's centre. */
  predicate InDisc(site: Site, p: Vec3) {
    var dx, dz := p.x - site.center.x, p.z - site.center.y;
    dx * dx + dz * dz <= Max(site.radi.x, site.radi.y) * Max(site.radi.x, site.radi.y)
  }

  /**
   * A candidate from a draw in the unit circle lies, horizontally, within the larger
   * radius of the centre: inside the vegetation's bounding sphere.
   */
  lemma CandidateInBounds(site: Site, r: Vec2)
    requires InUnitCircle(r) && site.radi.x >= 0.0 && site.radi.y >= 0.0
    ensures InDisc(site, Candidate(site, r))
  {
    var m := Max(site.radi.x, site.radi.y);
    SquareBelow(site.radi.x, m);
    SquareBelow(site.radi.y, m);
    var w2, h2, m2 := site.radi.x * site.radi.x, site.radi.y * site.radi.y, m * m;
    var rx2, ry2 := r.x * r.x, r.y * r.y;
    assert (r.x * site.radi.x) * (r.x * site.radi.x) == rx2 * w2;
    assert (r.y * site.radi.y) * (r.y * site.radi.y) == ry2 * h2;
    NonNegativeProduct(rx2, m2 - w2);
    NonNegativeProduct(ry2, m2 - h2);
    NonNegativeProduct(1.0 - rx2 - ry2, m2);
    assert rx2 * w2 + ry2 * h2 <= (rx2 + ry2) * m2 <= m2;
  }

  /** With all draws in the unit circle, every placed instance is within the bounding sphere. */
  lemma SpotsInBounds(site: Site, draws: nat -> Vec2, water: real, number: nat, k: nat)
    requires forall m :: InUnitCircle(draws(m))
    requires site.radi.x >= 0.0 && site.radi.y >= 0.0
    ensures forall p :: p in Spots(Candidates(site, draws), water, number, k) ==> InDisc(site, p)
  {
    var cand := Candidates(site, draws);
    SpotsAreDry(cand, water, number, k);
    forall p | p in Spots(cand, water, number, k)
      ensures InDisc(site, p)
    {
      var m :| k <= m && p == cand(m);
      CandidateInBounds(site, draws(m));
    }
  }

  /** The priority gate of drawSelf: vegetation of priority below 99 - quality is not drawn. */
  predicate Shown(priority: int, quality: int) {
    priority >= 99 - quality
  }

  /** Raising the quality never hides vegetation that was shown. */
  lemma RaisingQualityKeepsShown(priority: int, quality: int, higher: int)
    requires quality <= higher
    ensures Shown(priority, quality) ==> Shown(priority, higher)
    ensures Shown(priority, quality) <==> priority + quality >= 99
  {
  }

  // ---------------------------------------------------------------------------------
  // Grass as written: the try counter is never incremented

  /** How the placement of one instance can end after a bounded number of iterations. */
  datatype Outcome = Found(draw: nat) | GaveUp | StillSearching

  /**
   * Grass's search loop as written, run for at most `steps` iterations: `tries` is checked
   * against 1000 but never incremented.
   */
  function GrassSearchAsWritten(cand: nat -> Vec3, water: real, k: nat, tries: int, steps: nat): Outcome
    decreases steps
  {
    if steps == 0 then StillSearching
    else if tries > MaxTries then GaveUp
    else if Dry(water, cand(k)) then Found(k)
    else GrassSearchAsWritten(cand, water, k + 1, tries, steps - 1)
  }

  /**
   * The as-written loop never gives up: started with tries = 0 it either finds a dry
   * candidate or is still searching, however many iterations it runs; it stops only at a
   * dry candidate, and it is still searching while every candidate so far was under water.
   */
  lemma {:induction false} GrassNeverGivesUp(cand: nat -> Vec3, water: real, k: nat, steps: nat)
    ensures GrassSearchAsWritten(cand, water, k, 0, steps) != GaveUp
    ensures GrassSearchAsWritten(cand, water, k, 0, steps).Found? ==>
              Dry(water, cand(GrassSearchAsWritten(cand, water, k, 0, steps).draw))
    ensures (forall m :: k <= m < k + steps ==> !Dry(water, cand(m))) ==>
              GrassSearchAsWritten(cand, water, k, 0, steps) == StillSearching
    decreases steps
  {
    if steps > 0 && !Dry(water, cand(k)) {
      GrassNeverGivesUp(cand, water, k + 1, steps - 1);
    }
  }

  /**
   * A site whose terrain lies entirely under water (flat at height 0, water at 1): the
   * as-written grass loop is still searching after any number of iterations, while the
   * search with the counted tries gives up.
   */
  lemma GrassFloodedSiteLoopsForever(draws: nat -> Vec2, first: nat, steps: nat)
    ensures var cand := Candidates(Site(Vec2(0.0, 0.0), Vec2(1.0, 1.0), (p: Vec2) => 0.0), draws);
            GrassSearchAsWritten(cand, 1.0, first, 0, steps) == StillSearching
            && Search(cand, 1.0, first, first) == None
  {
    var cand := Candidates(Site(Vec2(0.0, 0.0), Vec2(1.0, 1.0), (p: Vec2) => 0.0), draws);
    forall m: nat
      ensures !Dry(1.0, cand(m))
    {
      var site := Site(Vec2(0.0, 0.0), Vec2(1.0, 1.0), (p: Vec2) => 0.0);
      var r := draws(m);
      assert cand(m) == Candidate(site, r);
      assert site.height(Vec2(r.x, r.y)) == 0.0;
    }
    GrassNeverGivesUp(cand, 1.0, first, steps);
    SearchFindsFirstDry(cand, 1.0, first, first);
  }

  // ---------------------------------------------------------------------------------
  // The placement loop

  /**
   * The do-while loop placing one instance, its first draw being `first`: draw a
   * candidate, count the try, give up after MaxTries draws, stop at a dry candidate.
   */
  method FindSpot(cand: nat -> Vec3, water: real, first: nat) returns (found: bool, k: nat, spot: Vec3)
    ensures found <==> Search(cand, water, first, first).Some?
    ensures found ==> Search(cand, water, first, first) == Some(k) && spot == cand(k)
  {
    var tries := 0;
    k := first;
    while true
      invariant tries <= MaxTries && k == first + tries
      invariant Search(cand, water, first, first) == Search(cand, water, first, k)
      decreases MaxTries - tries
    {
      spot := cand(k);
      tries := tries + 1;
      if tries > MaxTries {
        return false, k, spot;
      }
      if Dry(water, spot) {
        return true, k, spot;
      }
      k := k + 1;
    }
  }

  /** One round of the placement loop keeps its invariant. */
  lemma PlantStep(cand: nat -> Vec3, water: real, left: nat, k: nat, j: nat, placed: seq<Vec3>,
                  all: seq<Vec3>, shape: (nat, Vec3) -> Mat4)
    requires left > 0 && Search(cand, water, k, k) == Some(j)
    requires all == placed + Spots(cand, water, left, k)
    ensures all == (placed + [cand(j)]) + Spots(cand, water, left - 1, j + 1)
    ensures Instances(placed + [cand(j)], shape)
            == Instances(placed, shape) + [Compose(Translation(cand(j)), shape(|placed|, cand(j)))]
  {
    assert Spots(cand, water, left, k) == [cand(j)] + Spots(cand, water, left - 1, j + 1);
    assert (placed + [cand(j)]) + Spots(cand, water, left - 1, j + 1)
        == placed + ([cand(j)] + Spots(cand, water, left - 1, j + 1));
  }

  // ---------------------------------------------------------------------------------
  // Grass's placement loop as written

  /** Some candidate at or after draw k is dry. */
  ghost predicate DryFrom(cand: nat -> Vec3, water: real, k: nat) {
    exists j: nat :: j >= k && Dry(water, cand(j))
  }

  /** Draw j is the first dry candidate at or after draw `from`. */
  predicate FirstDryAt(cand: nat -> Vec3, water: real, from: nat, j: nat) {
    from <= j && Dry(water, cand(j)) && forall m :: from <= m < j ==> !Dry(water, cand(m))
  }

  /**
   * The draws grass's loop settles on, one per instance: each is the first dry candidate
   * after the draw the previous instance used (for the first instance, at or after `first`).
   */
  predicate GrassDraws(cand: nat -> Vec3, water: real, first: nat, ks: seq<nat>) {
    forall i :: 0 <= i < |ks| ==> FirstDryAt(cand, water, if i == 0 then first else ks[i - 1] + 1, ks[i])
  }

  /** The candidate positions of the given draws, in order. */
  function SpotsAt(cand: nat -> Vec3, ks: seq<nat>): (spots: seq<Vec3>)
    ensures |spots| == |ks| && forall i :: 0 <= i < |ks| ==> spots[i] == cand(ks[i])
  {
    seq(|ks|, i requires 0 <= i < |ks| => cand(ks[i]))
  }

  /** One more draw, the first dry one after the last: the draws and their instances grow by one. */
  lemma GrassDrawsStep(cand: nat -> Vec3, water: real, ks: seq<nat>, j: nat, shape: (nat, Vec3) -> Mat4)
    requires GrassDraws(cand, water, 0, ks)
    requires FirstDryAt(cand, water, if |ks| == 0 then 0 else ks[|ks| - 1] + 1, j)
    ensures GrassDraws(cand, water, 0, ks + [j])
    ensures Instances(SpotsAt(cand, ks + [j]), shape)
            == Instances(SpotsAt(cand, ks), shape) + [Compose(Translation(cand(j)), shape(|ks|, cand(j)))]
  {
    var ks' := ks + [j];
    forall i | 0 <= i < |ks'|
      ensures FirstDryAt(cand, water, if i == 0 then 0 else ks'[i - 1] + 1, ks'[i])
    {
      if i < |ks| {
        assert ks'[i] == ks[i];
        if i > 0 {
          assert ks'[i - 1] == ks[i - 1];
        }
      }
    }
  }

  /** There is only one first dry draw from a given start. */
  lemma FirstDryUnique(cand: nat -> Vec3, water: real, from: nat, j1: nat, j2: nat)
    requires FirstDryAt(cand, water, from, j1) && FirstDryAt(cand, water, from, j2)
    ensures j1 == j2
  {
  }

  /**
   * The grass placement is determined by the draws: two runs placing the same number of
   * instances from the same first draw use the same draws.
   */
  lemma {:induction false} GrassDrawsUnique(cand: nat -> Vec3, water: real, first: nat, ks1: seq<nat>, ks2: seq<nat>)
    requires |ks1| == |ks2| && GrassDraws(cand, water, first, ks1) && GrassDraws(cand, water, first, ks2)
    ensures ks1 == ks2
  {
    var i := 0;
    while i < |ks1|
      invariant 0 <= i <= |ks1| && ks1[..i] == ks2[..i]
    {
      if i > 0 {
        assert ks1[i - 1] == ks1[..i][i - 1] == ks2[..i][i - 1] == ks2[i - 1];
      }
      FirstDryUnique(cand, water, if i == 0 then first else ks1[i - 1] + 1, ks1[i], ks2[i]);
      assert ks1[..i + 1] == ks1[..i] + [ks1[i]];
      assert ks2[..i + 1] == ks2[..i] + [ks2[i]];
      i := i + 1;
    }
    assert ks1 == ks1[..i] && ks2 == ks2[..i];
  }

  /**
   * On ground where every candidate is dry, grass uses consecutive draws, one per instance,
   * exactly as the forest's loop does.
   */
  lemma GrassOnDryGround(cand: nat -> Vec3, water: real, first: nat, ks: seq<nat>)
    requires forall m: nat :: Dry(water, cand(m))
    requires GrassDraws(cand, water, first, ks)
    ensures forall i :: 0 <= i < |ks| ==> ks[i] == first + i
  {
    forall i | 0 <= i < |ks|
      ensures ks[i] == first + i
    {
      GrassDrawAdvances(cand, water, first, ks, i);
    }
  }

  lemma {:induction false} GrassDrawAdvances(cand: nat -> Vec3, water: real, first: nat, ks: seq<nat>, i: nat)
    requires forall m: nat :: Dry(water, cand(m))
    requires GrassDraws(cand, water, first, ks) && i < |ks|
    ensures ks[i] == first + i
  {
    var from := if i == 0 then first else ks[i - 1] + 1;
    if i > 0 {
      GrassDrawAdvances(cand, water, first, ks, i - 1);
    }
    assert 0 <= i < |ks| && FirstDryAt(cand, water, if i == 0 then first else ks[i - 1] + 1, ks[i]);
    assert Dry(water, cand(from));
  }

  /**
   * The do-while loop placing one grass instance, as written: draw, compare `tries` (never
   * incremented, so always 0) with 1000, and stop at a dry candidate. The loop only ends
   * because a dry candidate is assumed to come eventually.
   */
  method FindGrassSpot(cand: nat -> Vec3, water: real, first: nat) returns (k: nat, spot: Vec3)
    requires DryFrom(cand, water, first)
    ensures FirstDryAt(cand, water, first, k) && spot == cand(k)
  {
    ghost var d: nat :| d >= first && Dry(water, cand(d));
    k := first;
    spot := cand(k);
    while !Dry(water, spot)
      invariant first <= k <= d && spot == cand(k)
      invariant forall m :: first <= m < k ==> !Dry(water, cand(m))
      decreases d - k
    {
      k := k + 1;
      spot := cand(k);
    }
  }

  // ---------------------------------------------------------------------------------
  // The vegetation object

  /**
   * A forest or a patch of grass (AVegetation with Forest's or Grass's constructor): its
   * priority, position and bounding radius, and the instance matrices it draws.
   */
  class Vegetation {
    const priority: int
    const position: Vec3
    const boundingRadius: real
    var instances: seq<Mat4>

    /**
     * Forest's constructor: the disc's centre and radii come from the map position and radius,
     * the bounding radius is the larger radius; then `number` instances are placed, the
     * first one from draws(0), until one instance needs more than MaxTries draws.
     */
    constructor (t: TerrainData, mapPosition: Point, mapRadius: int, number: nat, priority: int,
                 height: Vec2 -> real, waterHeight: real, draws: nat -> Vec2, shape: (nat, Vec3) -> Mat4)
      requires TerrainMap.Valid(t)
      ensures this.priority == priority
      ensures position == Vec3(FromMap(t, mapPosition).x, 0.0, FromMap(t, mapPosition).y)
      ensures boundingRadius == Max(FromMapSize(t, Point(mapRadius, mapRadius)).x, FromMapSize(t, Point(mapRadius, mapRadius)).y)
      ensures instances == Instances(Spots(Candidates(SiteOf(t, mapPosition, mapRadius, height), draws), waterHeight, number, 0), shape)
    {
      var center := FromMap(t, mapPosition);
      var radi := FromMapSize(t, Point(mapRadius, mapRadius));
      this.priority := priority;
      position := Vec3(center.x, 0.0, center.y);
      boundingRadius := Max(radi.x, radi.y);
      instances := [];
      new;
      Plant(Candidates(Site(center, radi, height), draws), waterHeight, number, 0, shape);
    }

    /**
     * Grass's constructor: the same disc and bounding radius as a forest, but its search
     * never gives up, so every one of the `number` instances is placed at the first dry
     * candidate after the previous one. It only returns when such candidates keep coming.
     */
    constructor Grass(t: TerrainData, mapPosition: Point, mapRadius: int, number: nat, priority: int,
                      height: Vec2 -> real, waterHeight: real, draws: nat -> Vec2, shape: (nat, Vec3) -> Mat4)
      requires TerrainMap.Valid(t)
      requires forall k: nat :: DryFrom(Candidates(SiteOf(t, mapPosition, mapRadius, height), draws), waterHeight, k)
      ensures this.priority == priority
      ensures position == Vec3(FromMap(t, mapPosition).x, 0.0, FromMap(t, mapPosition).y)
      ensures boundingRadius == Max(FromMapSize(t, Point(mapRadius, mapRadius)).x, FromMapSize(t, Point(mapRadius, mapRadius)).y)
      ensures exists ks: seq<nat> ::
                |ks| == number && GrassDraws(Candidates(SiteOf(t, mapPosition, mapRadius, height), draws), waterHeight, 0, ks)
                && instances == Instances(SpotsAt(Candidates(SiteOf(t, mapPosition, mapRadius, height), draws), ks), shape)
    {
      var center := FromMap(t, mapPosition);
      var radi := FromMapSize(t, Point(mapRadius, mapRadius));
      this.priority := priority;
      position := Vec3(center.x, 0.0, center.y);
      boundingRadius := Max(radi.x, radi.y);
      instances := [];
      new;
      assert Site(center, radi, height) == SiteOf(t, mapPosition, mapRadius, height);
      ghost var ks := PlantGrass(Candidates(Site(center, radi, height), draws), waterHeight, number, shape);
    }

    /** Grass's placement loop: each instance at the first dry candidate after the previous one. */
    method PlantGrass(cand: nat -> Vec3, water: real, number: nat, shape: (nat, Vec3) -> Mat4) returns (ghost ks: seq<nat>)
      requires forall k: nat :: DryFrom(cand, water, k)
      modifies this`instances
      ensures |ks| == number && GrassDraws(cand, water, 0, ks)
      ensures instances == old(instances) + Instances(SpotsAt(cand, ks), shape)
    {
      ks := [];
      var k: nat := 0;
      var i: nat := 0;
      while i < number
        invariant i == |ks| <= number && GrassDraws(cand, water, 0, ks)
        invariant k == if i == 0 then 0 else ks[i - 1] + 1
        invariant instances == old(instances) + Instances(SpotsAt(cand, ks), shape)
      {
        var j, spot := FindGrassSpot(cand, water, k);
        instances := instances + [Compose(Translation(spot), shape(i, spot))];
        GrassDrawsStep(cand, water, ks, j, shape);
        ks := ks + [j];
        k := j + 1;
        i := i + 1;
      }
    }

    /**
     * The placement loop: for each instance, draw until a candidate is dry, giving up the
     * whole placement when one instance needs more than MaxTries draws; append each
     * placed instance's matrix. The first draw used is the one numbered `first`.
     */
    method Plant(cand: nat -> Vec3, water: real, number: nat, first: nat, shape: (nat, Vec3) -> Mat4)
      modifies this`instances
      ensures instances == old(instances) + Instances(Spots(cand, water, number, first), shape)
    {
      ghost var placed: seq<Vec3> := [];
      ghost var start := instances;
      ghost var all := Spots(cand, water, number, first);
      var k: nat := first;
      var i: nat := 0;
      var left: nat := number;
      assert all == placed + all;
      while left > 0
        invariant i == |placed| && i + left == number
        invariant all == placed + Spots(cand, water, left, k)
        invariant instances == start + Instances(placed, shape)
      {
        var found, j, spot := FindSpot(cand, water, k);
        if !found {
          assert all == placed + [];
          return;
        }
        PlantStep(cand, water, left, k, j, placed, all, shape);
        instances := instances + [Compose(Translation(spot), shape(i, spot))];
        placed := placed + [spot];
        k := j + 1;
        i, left := i + 1, left - 1;
      }
    }

    /** drawSelf: the instances drawn at the given quality. */
    method Draw(quality: int) returns (drawn: seq<Mat4>)
      ensures Shown(priority, quality) ==> drawn == instances
      ensures !Shown(priority, quality) ==> drawn == []
    {
      if priority >= 99 - quality {
        drawn := instances;
      } else {
        drawn := [];
      }
    }
  }

  /** The site the constructor places on: the disc from the map position and radius. */
  function SiteOf(t: TerrainData, mapPosition: Point, mapRadius: int, height: Vec2 -> real): Site
    requires TerrainMap.Valid(t)
  {
    Site(FromMap(t, mapPosition), FromMapSize(t, Point(mapRadius, mapRadius)), height)
  }
}

/**
 * SplatterSystem: blood spray as particles plus a fixed pool of splatter decals on the terrain.
 * A decal slot fades out over time; a new splat takes the first faded-out slot or else the
 * most faded one. A spray emits particles, may splat below itself, and plays its burst sound
 * on a free or the longest-playing audio source. The random draws, the terrain height, the
 * state of the audio sources and pow(drag, delta) are inputs.
 */
module Splatter {
  import opened Math3D
  import opened Wrappers
  import Particles

  /** A terrain rectangle in world x/z coordinates (QRectF: left, top, width, height). */
  datatype Rect = Rect(x: real, y: real, width: real, height: real)

  datatype Splatter = Splatter(rect: Rect, fade: real, rotation: int)

  /** a beats b: larger when `largest`, smaller otherwise. */
  predicate Beats(a: real, b: real, largest: bool) {
    if largest then a > b else a < b
  }

  /**
   * The slot a selection loop settles on: the first slot marked `stop` if there is one;
   * otherwise the earliest slot whose key is best (smallest, or largest when `largest`).
   */
  predicate IsChoice(stop: seq<bool>, key: seq<real>, largest: bool, k: int)
    requires |stop| == |key|
  {
    && 0 <= k < |stop|
    && if exists i :: 0 <= i < |stop| && stop[i] then
         stop[k] && forall i :: 0 <= i < k ==> !stop[i]
       else
         (forall i :: 0 <= i < |key| ==> !Beats(key[i], key[k], largest))
         && forall i :: 0 <= i < k ==> Beats(key[k], key[i], largest)
  }

  /** At most one slot is the choice. */
  lemma ChoiceUnique(stop: seq<bool>, key: seq<real>, largest: bool, k: int, k': int)
    requires |stop| == |key|
    requires IsChoice(stop, key, largest, k) && IsChoice(stop, key, largest, k')
    ensures k == k'
  {
    if exists i :: 0 <= i < |stop| && stop[i] {
      assert stop[k] && stop[k'];
    } else {
      assert !Beats(key[k'], key[k], largest) && !Beats(key[k], key[k'], largest);
    }
  }

  /** The selection loop of splat (over fades) and of spray (over audio offsets), breaking at the first `stop`. */
  method Choose(stop: seq<bool>, key: seq<real>, largest: bool) returns (k: nat)
    requires |stop| == |key| > 0
    ensures IsChoice(stop, key, largest, k)
  {
    k := 0;
    var i := 0;
    while i < |stop|
      invariant 0 <= i <= |stop| && 0 <= k < |stop| && k <= i
      invariant forall j :: 0 <= j < i ==> !stop[j]
      invariant forall j :: 0 <= j < i ==> !Beats(key[j], key[k], largest)
      invariant forall j :: 0 <= j < k ==> Beats(key[k], key[j], largest)
    {
      if stop[i] {
        k := i;
        return;
      }
      if Beats(key[i], key[k], largest) {
        k := i;
      }
      i := i + 1;
    }
  }

  function Fades(s: seq<Splatter>): (r: seq<real>)
    ensures |r| == |s| && forall i :: 0 <= i < |s| ==> r[i] == s[i].fade
  {
    seq(|s|, i requires 0 <= i < |s| => s[i].fade)
  }

  function FadedOut(s: seq<Splatter>): (r: seq<bool>)
    ensures |r| == |s| && forall i :: 0 <= i < |s| ==> (r[i] <==> s[i].fade <= 0.0)
  {
    seq(|s|, i requires 0 <= i < |s| => s[i].fade <= 0.0)
  }

  /** A fresh splat slot can be reused at once: the choice falls on a faded-out slot whenever there is one. */
  lemma SplatReusesFadedSlot(s: seq<Splatter>, k: int)
    requires |s| > 0 && IsChoice(FadedOut(s), Fades(s), false, k)
    ensures (exists i :: 0 <= i < |s| && s[i].fade <= 0.0) <==> s[k].fade <= 0.0
  {
    if s[k].fade <= 0.0 {
      assert FadedOut(s)[k];
    }
  }

  /** The size×size decal rectangle centred on the source's x and z. */
  function SplatRect(source: Vec3, size: real): (r: Rect)
    ensures r.x + r.width / 2.0 == source.x && r.y + r.height / 2.0 == source.z
    ensures r.width == size && r.height == size
  {
    Rect(source.x - size * 0.5, source.z - size * 0.5, size, size)
  }

  /** The spray size, clamped to [10, 100]. */
  function SpraySize(size: real): (r: real)
    ensures 10.0 <= r <= 100.0
    ensures 10.0 <= size <= 100.0 ==> r == size
    ensures size < 10.0 ==> r == 10.0
    ensures size > 100.0 ==> r == 100.0
  {
    if size < 10.0 then 10.0 else if size > 100.0 then 100.0 else size
  }

  /** The number of particles a spray emits: half the clamped size, truncated, and at least 1. */
  function SprayCount(size: real): (n: int)
  {
    var half := Trunc(0.5 * SpraySize(size));
    if half < 1 then 1 else half
  }

  /** Because of the clamp, a spray always emits between 5 and 50 particles, so the lower bound of 1 never acts. */
  lemma SprayCountBounds(size: real)
    ensures 5 <= SprayCount(size) <= 50
    ensures SprayCount(size) == Floor(0.5 * SpraySize(size))
  {
  }

  /** particleInteraction: a particle at least half the particle size below the ground dies. */
  function Interaction(heightAboveGround: real, size: real, p: Particles.Particle): (r: Particles.Particle)
    ensures r.velocity == p.velocity && r.position == p.position && r.rotation == p.rotation
  {
    if heightAboveGround > -size / 2.0 then p else p.(life := 0.0)
  }

  /** The interaction kills exactly the live particles that are deep enough below the ground. */
  lemma InteractionKillsBelowGround(heightAboveGround: real, size: real, p: Particles.Particle)
    requires Particles.Live(p)
    ensures !Particles.Live(Interaction(heightAboveGround, size, p)) <==> heightAboveGround <= -size / 2.0
    ensures heightAboveGround > -size / 2.0 ==> Interaction(heightAboveGround, size, p) == p
  {
  }

  class SplatterSystem {
    const splatters: array<Splatter>
    const particles: Particles.ParticleSystem
    var splatBelow: bool
    var fadeSpeed: real
    var driftFactor: real
    var burstPitchRange: real
    /** The number of burst audio sources. */
    const burstSources: nat

    ghost predicate Valid()
      reads this, particles
    {
      particles.Valid() && splatters.Length > 0 && burstSources == 4
    }

    /**
     * All maxSplatters slots start faded out with an empty rectangle and the rotation drawn for
     * them (rand() % 4, so in [0, 3]); the particle system gets size 4, gravity -120 and drag 0.25.
     */
    constructor (maxSplatters: nat, rotations: seq<int>, maxParticles: nat, particleRotations: seq<int>)
      requires maxSplatters > 0 && |rotations| == maxSplatters && forall i :: 0 <= i < maxSplatters ==> 0 <= rotations[i] < 4
      requires |particleRotations| == maxParticles && forall i :: 0 <= i < maxParticles ==> 0 <= particleRotations[i] < 4
      ensures Valid() && fresh(splatters) && fresh(particles) && fresh(particles.particles) && fresh(particles.vertices)
      ensures splatters.Length == maxSplatters
      ensures forall i :: 0 <= i < maxSplatters ==> splatters[i] == Splatter(Rect(0.0, 0.0, 0.0, 0.0), 0.0, rotations[i])
      ensures particles.particles.Length == maxParticles && Particles.CountLive(particles.particles[..]) == 0
      ensures particles.size == 4.0 && particles.gravity == Vec3(0.0, -120.0, 0.0) && particles.drag == 0.25
      ensures splatBelow && fadeSpeed == 0.3 && driftFactor == 100.0 && burstPitchRange == 0.3
    {
      splatters := new Splatter[maxSplatters](i requires 0 <= i < maxSplatters reads {} => Splatter(Rect(0.0, 0.0, 0.0, 0.0), 0.0, rotations[i]));
      var ps := new Particles.ParticleSystem(maxParticles, particleRotations);
      ps.size := 4.0;
      ps.gravity := Vec3(0.0, -120.0, 0.0);
      ps.drag := 0.25;
      particles := ps;
      splatBelow := true;
      fadeSpeed := 0.3;
      driftFactor := 100.0;
      burstPitchRange := 0.3;
      burstSources := 4;
    }

    /** update: the particles move, and every slot's fade drops by fadeSpeed * delta, without a floor. */
    method Update(delta: real, dragPow: real, interact: Option<Particles.Particle -> Particles.Particle>)
      modifies splatters, particles.particles
      ensures particles.particles[..] == Particles.Updated(old(particles.particles[..]), delta, dragPow, particles.gravity, interact)
      ensures forall i :: 0 <= i < splatters.Length ==>
        splatters[i] == old(splatters[i]).(fade := old(splatters[i].fade) - fadeSpeed * delta)
    {
      particles.Update(delta, dragPow, interact);
      ghost var moved := particles.particles[..];
      var i := 0;
      while i < splatters.Length
        invariant 0 <= i <= splatters.Length
        invariant particles.particles[..] == moved
        invariant forall k :: 0 <= k < splatters.Length ==>
          splatters[k] == if k < i then old(splatters[k]).(fade := old(splatters[k].fade) - fadeSpeed * delta) else old(splatters[k])
      {
        splatters[i] := splatters[i].(fade := splatters[i].fade - fadeSpeed * delta);
        i := i + 1;
      }
    }

    /**
     * splat: the chosen slot (the first faded-out one, else the earliest most-faded one) gets
     * fade 1 and the size×size rectangle centred below the source; no other slot changes.
     */
    method Splat(source: Vec3, size: real) returns (slot: nat)
      requires splatters.Length > 0
      modifies splatters
      ensures IsChoice(FadedOut(old(splatters[..])), Fades(old(splatters[..])), false, slot)
      ensures splatters[slot] == Splatter(SplatRect(source, size), 1.0, old(splatters[slot].rotation))
      ensures forall i :: 0 <= i < splatters.Length && i != slot ==> splatters[i] == old(splatters[i])
    {
      slot := Choose(FadedOut(splatters[..]), Fades(splatters[..]), false);
      splatters[slot] := splatters[slot].(fade := 1.0, rect := Rect(source.x - size * 0.5, source.z - size * 0.5, size, size));
    }

    /**
     * spray: emits SprayCount(size) particles at the source (the n-th taking draw(n)); when
     * splatting below is on and the source is less than half the clamped size above the ground,
     * splats a decal of clamped size times `splatScale` (a draw in [0.2, 0.3]). Returns the
     * burst audio source chosen: the first one not playing, else the earliest one with the
     * largest offset. Sound position, pitch and playback are left out.
     */
    method Spray(source: Vec3, size: real, heightAboveGround: real, splatScale: real,
                 playing: seq<bool>, offsets: seq<real>, draw: nat -> (Vec3, real)) returns (burst: nat, splat: Option<nat>)
      requires Valid() && |playing| == burstSources && |offsets| == burstSources
      modifies splatters, particles.particles
      ensures particles.particles[..] == Particles.Emitted(old(particles.particles[..]), source, SprayCount(size), Zero3, draw)
      ensures splat.Some? <==> splatBelow && heightAboveGround < SpraySize(size) * 0.5
      ensures splat.Some? ==> (
        && IsChoice(FadedOut(old(splatters[..])), Fades(old(splatters[..])), false, splat.value)
        && splatters[splat.value] == Splatter(SplatRect(source, SpraySize(size) * splatScale), 1.0, old(splatters[splat.value].rotation)))
      ensures forall i :: 0 <= i < splatters.Length && splat != Some(i) ==> splatters[i] == old(splatters[i])
      ensures IsChoice(seq(|playing|, i requires 0 <= i < |playing| => !playing[i]), offsets, true, burst)
    {
      var clamped := SpraySize(size);
      var numToEmit := Trunc(0.5 * clamped);
      if numToEmit < 1 {
        numToEmit := 1;
      }
      particles.EmitSpherical(source, numToEmit, Zero3, draw);
      splat := None;
      if splatBelow && heightAboveGround < clamped * 0.5 {
        var slot := Splat(source, clamped * splatScale);
        splat := Some(slot);
      }
      burst := Choose(seq(|playing|, i requires 0 <= i < |playing| => !playing[i]), offsets, true);
    }

    /**
     * draw: the particles are drawn, then every decal slot with fade > 0 in slot order; the
     * result lists the slots drawn. Blending and the terrain patch transform are left out.
     */
    method Draw(sqrt: real -> real, right: Vec3, up: Vec3, dir: Vec3) returns (active: nat, drawn: seq<nat>)
      requires Valid() && IsSqrt(sqrt)
      modifies particles.vertices
      ensures active == 4 * Particles.CountLive(particles.particles[..]) <= particles.vertices.Length
      ensures Particles.QuadsWritten(particles.vertices[..], particles.particles[..],
        Particles.BillboardOf(sqrt, right, up, dir, particles.size), particles.particles.Length)
      ensures forall k :: 0 <= k < |drawn| ==> drawn[k] < splatters.Length && splatters[drawn[k]].fade > 0.0
      ensures forall i :: 0 <= i < splatters.Length && splatters[i].fade > 0.0 ==> i in drawn
      ensures forall k, l :: 0 <= k < l < |drawn| ==> drawn[k] < drawn[l]
    {
      active := particles.Draw(sqrt, right, up, dir);
      drawn := [];
      var i := 0;
      while i < splatters.Length
        invariant 0 <= i <= splatters.Length
        invariant forall k :: 0 <= k < |drawn| ==> drawn[k] < i && splatters[drawn[k]].fade > 0.0
        invariant forall j :: 0 <= j < i && splatters[j].fade > 0.0 ==> j in drawn
        invariant forall k, l :: 0 <= k < l < |drawn| ==> drawn[k] < drawn[l]
      {
        if splatters[i].fade <= 0.0 {
          i := i + 1;
          continue;
        }
        drawn := drawn + [i];
        i := i + 1;
      }
    }
  }
}

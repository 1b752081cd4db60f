/**
 * ParticleSystem: a fixed pool of particles in which a particle with life <= 0 is a free slot.
 * Updating moves the live particles; emitting revives free slots in index order; drawing packs
 * one camera-facing quad per live particle into the vertex buffer. The random draws (the
 * initial rotations, the emission velocities and lives) and pow(drag, delta) are inputs.
 */
module Particles {
  import opened Math3D
  import opened Wrappers
  import opened Vertex

  datatype Particle = Particle(velocity: Vec3, position: Vec3, life: real, rotation: int)

  predicate Live(p: Particle) {
    p.life > 0.0
  }

  /** The number of free slots in s. */
  function CountDead(s: seq<Particle>): (n: nat)
    ensures n <= |s|
  {
    if |s| == 0 then 0 else CountDead(s[..|s| - 1]) + (if Live(s[|s| - 1]) then 0 else 1)
  }

  function CountLive(s: seq<Particle>): (n: nat)
    ensures n <= |s|
    ensures n + CountDead(s) == |s|
  {
    if |s| == 0 then 0 else CountLive(s[..|s| - 1]) + (if Live(s[|s| - 1]) then 1 else 0)
  }

  /** A live particle has more live particles after it than before it. */
  lemma {:induction false} CountLiveGrows(s: seq<Particle>, i: int, k: int)
    requires 0 <= i < k <= |s| && Live(s[i])
    ensures CountLive(s[..i]) + 1 <= CountLive(s[..k])
  {
    assert s[..k][..k - 1] == s[..k - 1];
    if i < k - 1 {
      CountLiveGrows(s, i, k - 1);
    } else {
      assert s[..k][k - 1] == s[i];
    }
  }

  /** Free slots only accumulate along the pool. */
  lemma {:induction false} CountDeadMonotone(s: seq<Particle>, i: int, k: int)
    requires 0 <= i <= k <= |s|
    ensures CountDead(s[..i]) <= CountDead(s[..k])
  {
    if i < k {
      assert s[..k][..k - 1] == s[..k - 1];
      CountDeadMonotone(s, i, k - 1);
    }
  }

  /** One frame of motion for a live particle: position by velocity, velocity by drag and gravity, life by delta. */
  function Moved(p: Particle, delta: real, dragPow: real, gravity: Vec3): (r: Particle)
    ensures r.life == p.life - delta && r.rotation == p.rotation
    ensures r.position == Add(p.position, Scale(p.velocity, delta))
  {
    Particle(Add(Scale(p.velocity, dragPow), Scale(gravity, delta)), Add(p.position, Scale(p.velocity, delta)), p.life - delta, p.rotation)
  }

  /** update: live particles move and then meet the interaction callback, if any; free slots stay as they are. */
  function Updated(s: seq<Particle>, delta: real, dragPow: real, gravity: Vec3, interact: Option<Particle -> Particle>): (r: seq<Particle>)
    ensures |r| == |s|
    ensures forall i :: 0 <= i < |s| && !Live(s[i]) ==> r[i] == s[i]
    ensures interact.None? ==> forall i :: 0 <= i < |s| && Live(s[i]) ==> r[i] == Moved(s[i], delta, dragPow, gravity)
  {
    seq(|s|, i requires 0 <= i < |s| =>
      if !Live(s[i]) then s[i]
      else if interact.None? then Moved(s[i], delta, dragPow, gravity)
      else interact.value(Moved(s[i], delta, dragPow, gravity)))
  }

  /** Without a callback, a live particle whose life is at most delta becomes a free slot; the others stay live. */
  lemma UpdateFreesExpired(s: seq<Particle>, delta: real, dragPow: real, gravity: Vec3, i: int)
    requires 0 <= i < |s| && Live(s[i])
    ensures Live(Updated(s, delta, dragPow, gravity, None)[i]) <==> s[i].life > delta
  {
  }

  /** The k-th emitted particle: velocity, plus the offset, and life drawn at random. */
  function Revived(p: Particle, source: Vec3, velOffset: Vec3, drawn: (Vec3, real)): Particle {
    Particle(Add(drawn.0, velOffset), source, drawn.1, p.rotation)
  }

  /**
   * emitSpherical: each free slot, in index order, is revived at `source` while fewer than
   * `toEmit` have been; the n-th revived slot takes the n-th random draw.
   */
  function Emitted(s: seq<Particle>, source: Vec3, toEmit: int, velOffset: Vec3, draw: nat -> (Vec3, real)): (r: seq<Particle>)
    ensures |r| == |s|
  {
    if |s| == 0 then []
    else
      var front := s[..|s| - 1];
      var p := s[|s| - 1];
      var n := CountDead(front);
      Emitted(front, source, toEmit, velOffset, draw)
        + [if !Live(p) && n < toEmit then Revived(p, source, velOffset, draw(n)) else p]
  }

  /** Live particles are never touched by emission, and a revived slot sits at `source`. */
  lemma {:induction false} EmittedKeepsLive(s: seq<Particle>, source: Vec3, toEmit: int, velOffset: Vec3, draw: nat -> (Vec3, real), i: int)
    requires 0 <= i < |s|
    ensures var r := Emitted(s, source, toEmit, velOffset, draw);
      (Live(s[i]) ==> r[i] == s[i]) && (r[i] != s[i] ==> r[i].position == source && !Live(s[i]))
  {
    if i < |s| - 1 {
      EmittedKeepsLive(s[..|s| - 1], source, toEmit, velOffset, draw, i);
    }
  }

  /**
   * When every draw has positive life, emission revives exactly min(toEmit, free slots) of them:
   * that many fewer slots are free afterwards.
   */
  lemma {:induction false} EmittedCount(s: seq<Particle>, source: Vec3, toEmit: int, velOffset: Vec3, draw: nat -> (Vec3, real))
    requires toEmit >= 0 && forall k: nat :: draw(k).1 > 0.0
    ensures CountDead(Emitted(s, source, toEmit, velOffset, draw)) == CountDead(s) - (if toEmit < CountDead(s) then toEmit else CountDead(s))
  {
    if |s| > 0 {
      var front := s[..|s| - 1];
      EmittedCount(front, source, toEmit, velOffset, draw);
      var r := Emitted(s, source, toEmit, velOffset, draw);
      assert r[..|s| - 1] == Emitted(front, source, toEmit, velOffset, draw);
    }
  }

  /** Texture corner c of a quad, counter-clockwise from (0, 0). */
  function TexCorner(c: int): (t: Vec2)
    requires 0 <= c < 4
    ensures t.x == 0.0 || t.x == 1.0
  {
    if c == 0 then Vec2(0.0, 0.0)
    else if c == 1 then Vec2(1.0, 0.0)
    else if c == 2 then Vec2(1.0, 1.0)
    else Vec2(0.0, 1.0)
  }

  /** A particle's four vertices take four different texture corners, whatever its rotation. */
  lemma QuadUsesEveryCorner(rotation: int, j: int, k: int)
    requires 0 <= j < k < 4
    ensures TexCorner((rotation + j) % 4) != TexCorner((rotation + k) % 4)
  {
  }

  /** The corner offsets and normals of a billboard quad, in vertex order D, C, B, A. */
  datatype Billboard = Billboard(offsets: seq<Vec3>, normals: seq<Vec3>)

  function BillboardOf(sqrt: real -> real, right: Vec3, up: Vec3, dir: Vec3, size: real): (b: Billboard)
    requires IsSqrt(sqrt)
    ensures |b.offsets| == 4 && |b.normals| == 4
  {
    var vA := Scale(Add(Scale(right, -1.0), up), size);
    var vB := Scale(Add(right, up), size);
    var vC := Scale(Sub(right, up), size);
    var vD := Scale(Sub(Scale(right, -1.0), up), size);
    var offsets := [vD, vC, vB, vA];
    Billboard(offsets, seq(4, j requires 0 <= j < 4 => Normalized(sqrt, Add(offsets[j], dir))))
  }

  /** Vertex j of a particle's quad. */
  function QuadVertex(b: Billboard, p: Particle, j: int): VertexP3fN3fT2f
    requires |b.offsets| == 4 && |b.normals| == 4 && 0 <= j < 4
  {
    VertexP3fN3fT2f(Add(p.position, b.offsets[j]), b.normals[j], TexCorner((p.rotation + j) % 4))
  }

  /** The four vertices of p's quad lie at positions at .. at + 3 of vs. */
  ghost predicate QuadAt(vs: seq<VertexP3fN3fT2f>, at: int, b: Billboard, p: Particle)
    requires |b.offsets| == 4 && |b.normals| == 4
  {
    0 <= at && at + 4 <= |vs| && forall j :: 0 <= j < 4 ==> vs[at + j] == QuadVertex(b, p, j)
  }

  /**
   * The vertex buffer holds, for each live particle among the first n, its quad at
   * 4 * (the number of live particles before it).
   */
  ghost predicate QuadsWritten(vs: seq<VertexP3fN3fT2f>, ps: seq<Particle>, b: Billboard, n: int)
    requires |b.offsets| == 4 && |b.normals| == 4 && 0 <= n <= |ps|
  {
    forall i :: 0 <= i < n && Live(ps[i]) ==> QuadAt(vs, 4 * CountLive(ps[..i]), b, ps[i])
  }

  /** Writing the quad of the n-th live particle right after the quads before it keeps those intact. */
  lemma QuadsWrittenStep(vs: seq<VertexP3fN3fT2f>, vs': seq<VertexP3fN3fT2f>, ps: seq<Particle>, b: Billboard, n: int)
    requires |b.offsets| == 4 && |b.normals| == 4 && 0 <= n < |ps| && Live(ps[n])
    requires QuadsWritten(vs, ps, b, n)
    requires |vs'| == |vs| && QuadAt(vs', 4 * CountLive(ps[..n]), b, ps[n])
    requires forall m :: 0 <= m < 4 * CountLive(ps[..n]) ==> vs'[m] == vs[m]
    ensures QuadsWritten(vs', ps, b, n + 1)
  {
    forall i | 0 <= i < n && Live(ps[i])
      ensures QuadAt(vs', 4 * CountLive(ps[..i]), b, ps[i])
    {
      CountLiveGrows(ps, i, n);
      assert QuadAt(vs, 4 * CountLive(ps[..i]), b, ps[i]);
    }
  }

  class ParticleSystem {
    var minLife: real
    var maxLife: real
    var drag: real
    var size: real
    var gravity: Vec3
    const particles: array<Particle>
    const vertices: array<VertexP3fN3fT2f>

    ghost predicate Valid()
      reads this
    {
      vertices.Length == 4 * particles.Length
    }

    /** A pool of `capacity` free particles, each with its random rotation in [0, 3], and four vertex slots per particle. */
    constructor (capacity: nat, rotations: seq<int>)
      requires |rotations| == capacity && forall i :: 0 <= i < capacity ==> 0 <= rotations[i] < 4
      ensures Valid() && fresh(particles) && fresh(vertices) && particles.Length == capacity
      ensures forall i :: 0 <= i < capacity ==> particles[i] == Particle(Zero3, Zero3, 0.0, rotations[i])
      ensures CountLive(particles[..]) == 0
      ensures minLife == 1.0 && maxLife == 2.0 && drag == 1.0 && size == 1.0 && gravity == Vec3(0.0, -9.81, 0.0)
    {
      minLife, maxLife, drag, size := 1.0, 2.0, 1.0, 1.0;
      gravity := Vec3(0.0, -9.81, 0.0);
      particles := new Particle[capacity](i requires 0 <= i < capacity reads {} => Particle(Zero3, Zero3, 0.0, rotations[i]));
      vertices := new VertexP3fN3fT2f[4 * capacity](_ => DefaultP3fN3fT2f());
      new;
      NoneLive(particles[..]);
    }

    /** A pool whose every slot has life 0 has no live particle. */
    static lemma {:induction false} NoneLive(s: seq<Particle>)
      requires forall i :: 0 <= i < |s| ==> s[i].life == 0.0
      ensures CountLive(s) == 0
    {
      if |s| > 0 {
        NoneLive(s[..|s| - 1]);
      }
    }

    /** update: `dragPow` is pow(drag, delta); `interact` is the interaction callback, if one is set. */
    method Update(delta: real, dragPow: real, interact: Option<Particle -> Particle>)
      modifies particles
      ensures particles[..] == Updated(old(particles[..]), delta, dragPow, gravity, interact)
    {
      ghost var orig := particles[..];
      ghost var target := Updated(orig, delta, dragPow, gravity, interact);
      var deltaVelocity := Scale(gravity, delta);
      var i := 0;
      while i < particles.Length
        invariant 0 <= i <= particles.Length
        invariant forall k :: 0 <= k < i ==> particles[k] == target[k]
        invariant forall k :: i <= k < particles.Length ==> particles[k] == orig[k]
      {
        var p := particles[i];
        if p.life <= 0.0 {
          i := i + 1;
          continue;
        }
        p := p.(position := Add(p.position, Scale(p.velocity, delta)));
        p := p.(velocity := Scale(p.velocity, dragPow));
        p := p.(velocity := Add(p.velocity, deltaVelocity));
        p := p.(life := p.life - delta);
        assert p == Moved(orig[i], delta, dragPow, gravity);
        if interact.Some? {
          p := interact.value(p);
        }
        particles[i] := p;
        i := i + 1;
      }
      assert particles[..] == target;
    }

    /**
     * emitSpherical: revives up to `toEmit` free slots in index order at `source`. The n-th revived
     * particle takes velocity draw(n).0 (a random direction times a random speed) plus `velOffset`,
     * and life draw(n).1.
     */
    method EmitSpherical(source: Vec3, toEmit: int, velOffset: Vec3, draw: nat -> (Vec3, real))
      modifies particles
      ensures particles[..] == Emitted(old(particles[..]), source, toEmit, velOffset, draw)
    {
      ghost var orig := particles[..];
      var left := toEmit;
      var i := 0;
      while i < particles.Length && left > 0
        invariant 0 <= i <= particles.Length
        invariant left == toEmit - CountDead(orig[..i])
        invariant particles[..i] == Emitted(orig[..i], source, toEmit, velOffset, draw)
        invariant forall k :: i <= k < particles.Length ==> particles[k] == orig[k]
      {
        EmittedStep(orig, source, toEmit, velOffset, draw, i);
        if particles[i].life > 0.0 {
          assert particles[..i + 1] == particles[..i] + [orig[i]];
          i := i + 1;
          continue;
        }
        particles[i] := Revived(particles[i], source, velOffset, draw(toEmit - left));
        assert particles[..i + 1] == particles[..i] + [particles[i]];
        left := left - 1;
        i := i + 1;
      }
      EmittedRest(orig, source, toEmit, velOffset, draw, i);
      assert particles[..] == particles[..i] + orig[i..];
    }

    /** Emission over one more slot of the pool. */
    static lemma EmittedStep(s: seq<Particle>, source: Vec3, toEmit: int, velOffset: Vec3, draw: nat -> (Vec3, real), i: int)
      requires 0 <= i < |s|
      ensures CountDead(s[..i + 1]) == CountDead(s[..i]) + (if Live(s[i]) then 0 else 1)
      ensures Emitted(s[..i + 1], source, toEmit, velOffset, draw) == Emitted(s[..i], source, toEmit, velOffset, draw)
        + [if !Live(s[i]) && CountDead(s[..i]) < toEmit then Revived(s[i], source, velOffset, draw(CountDead(s[..i]))) else s[i]]
    {
      assert s[..i + 1][..i] == s[..i];
    }

    /** Once `toEmit` free slots lie before position i, emission leaves the rest of the pool alone. */
    static lemma {:induction false} EmittedRest(s: seq<Particle>, source: Vec3, toEmit: int, velOffset: Vec3, draw: nat -> (Vec3, real), i: int)
      requires 0 <= i <= |s| && (i == |s| || CountDead(s[..i]) >= toEmit)
      ensures Emitted(s, source, toEmit, velOffset, draw) == Emitted(s[..i], source, toEmit, velOffset, draw) + s[i..]
    {
      if i < |s| {
        var front := s[..|s| - 1];
        assert front[..i] == s[..i];
        CountDeadMonotone(s, i, |s| - 1);
        EmittedRest(front, source, toEmit, velOffset, draw, i);
        assert front[i..] + [s[|s| - 1]] == s[i..];
      } else {
        assert s[..i] == s;
      }
    }

    /**
     * draw: packs the quads of the live particles, in pool order, at the front of the vertex
     * buffer and returns how many vertices it filled. `right`, `up` and `dir` are the first
     * three rows of the modelview matrix.
     */
    method Draw(sqrt: real -> real, right: Vec3, up: Vec3, dir: Vec3) returns (active: nat)
      requires Valid() && IsSqrt(sqrt)
      modifies vertices
      ensures active == 4 * CountLive(particles[..]) <= vertices.Length
      ensures QuadsWritten(vertices[..], particles[..], BillboardOf(sqrt, right, up, dir, size), particles.Length)
      ensures forall m :: active <= m < vertices.Length ==> vertices[m] == old(vertices[m])
    {
      var b := BillboardOf(sqrt, right, up, dir, size);
      ghost var ps := particles[..];
      active := 0;
      var i := 0;
      while i < particles.Length
        invariant 0 <= i <= particles.Length
        invariant active == 4 * CountLive(ps[..i])
        invariant QuadsWritten(vertices[..], ps, b, i)
        invariant forall m :: active <= m < vertices.Length ==> vertices[m] == old(vertices[m])
      {
        ghost var before := vertices[..];
        assert ps[..i + 1][..i] == ps[..i];
        if particles[i].life <= 0.0 {
          i := i + 1;
          continue;
        }
        CountLiveGrows(ps, i, particles.Length);
        assert ps[..particles.Length] == ps;
        WriteQuad(b, particles[i], active);
        QuadsWrittenStep(before, vertices[..], ps, b, i);
        active := active + 4;
        i := i + 1;
      }
      assert ps[..i] == ps;
    }

    /** Writes the four vertices of one particle's quad from `at` on. */
    method WriteQuad(b: Billboard, p: Particle, at: int)
      requires |b.offsets| == 4 && |b.normals| == 4 && 0 <= at && at + 4 <= vertices.Length
      modifies vertices
      ensures QuadAt(vertices[..], at, b, p)
      ensures forall m :: 0 <= m < vertices.Length && !(at <= m < at + 4) ==> vertices[m] == old(vertices[m])
    {
      var j := 0;
      while j < 4
        invariant 0 <= j <= 4
        invariant forall k :: 0 <= k < j ==> vertices[at + k] == QuadVertex(b, p, k)
        invariant forall m :: 0 <= m < vertices.Length && !(at <= m < at + j) ==> vertices[m] == old(vertices[m])
      {
        vertices[at + j] := VertexP3fN3fT2f(Add(p.position, b.offsets[j]), b.normals[j], TexCorner((p.rotation + j) % 4));
        j := j + 1;
      }
    }
  }
}

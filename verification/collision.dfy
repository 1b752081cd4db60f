/**
 * The collision queries of the scene graph: collideSphere pushes a sphere out of the ground,
 * the trees and the teapot, gathering the objects it touched and the sum of their surface
 * normals; intersectLine shortens a ray to the nearest object it meets. The per-class parts
 * are values here; the graph walk over an arena is given as a specification that the methods
 * of class SceneGraph.Graph follow.
 */
module Collision {
  import opened Math3D
  import opened Wrappers
  import opened SceneNode
  import TerrainMap
  import TerrainQuery
  import Sphere
  import Capsule

  /**
   * The three in/out parameters of collideSphere: the objects collided with so far (the
   * returned vector), the sphere's centre and the accumulated normal.
   */
  datatype Collision = Collision(hits: seq<nat>, center: Vec3, normal: Vec3)

  function Max(a: real, b: real): real { if a >= b then a else b }

  // ---------------------------------------------------------------- a push out of a capsule

  /**
   * After a capsule contact with a normal to move along, moving the centre by normal * depth
   * puts it exactly the sum of the radii from the segment's nearest point, along the normal:
   * the sphere then just touches the capsule.
   */
  lemma CapsulePushOut(sqrt: real -> real, start: Vec3, end: Vec3, radiusCapsule: real,
                       center: Vec3, radiusSphere: real, normal: Vec3, depth: real)
    requires IsSqrt(sqrt) && LengthSq(Sub(end, start)) > 0.0
    requires var res := Capsule.IntersectSphere(sqrt, start, end, radiusCapsule, center, radiusSphere, normal, depth);
             res.hit && Length(sqrt, Sub(center, Capsule.ClosestPoint(start, end, center))) > FltEpsilon
    ensures var res := Capsule.IntersectSphere(sqrt, start, end, radiusCapsule, center, radiusSphere, normal, depth);
            Sub(Add(center, Scale(res.normal, res.depth)), Capsule.ClosestPoint(start, end, center))
            == Scale(res.normal, radiusSphere + radiusCapsule)
            && LengthSq(res.normal) == 1.0
  {
    var res := Capsule.IntersectSphere(sqrt, start, end, radiusCapsule, center, radiusSphere, normal, depth);
    var closest := Capsule.ClosestPoint(start, end, center);
    var d := Length(sqrt, Sub(center, closest));
    PushAlong(center, closest, res.normal, d, radiusSphere + radiusCapsule);
  }

  // ---------------------------------------------------------------- Landscape

  /** The ground under (x, z): the terrain height where there is a triangle, else the infinite plane at the offset's y. */
  function Ground(sqrt: real -> real, t: TerrainMap.TerrainData, x: real, z: real): real
    requires IsSqrt(sqrt) && TerrainMap.Valid(t)
  {
    match TerrainQuery.GetHeight(sqrt, t, Vec2(x, z))
    case Some(h) => h
    case None => t.offset.y
  }

  /** The normal of the ground under (x, z): the nearest triangle's where there is one, else straight up. */
  function GroundNormal(sqrt: real -> real, t: TerrainMap.TerrainData, x: real, z: real): Vec3
    requires IsSqrt(sqrt) && TerrainMap.Valid(t) && t.mapWidth >= 2 && t.mapHeight >= 2
  {
    if TerrainQuery.GetHeight(sqrt, t, Vec2(x, z)).Some? then TerrainQuery.GetNormalClamped(sqrt, t, Vec2(x, z)) else UnitY
  }

  /**
   * Landscape::collideSphere after its children: a sphere reaching below the ground is lifted
   * straight up until it rests on it, the landscape is recorded and the ground normal added.
   */
  function LandscapeCollide(sqrt: real -> real, t: TerrainMap.TerrainData, self: nat, radius: real, c: Collision): (r: Collision)
    requires IsSqrt(sqrt) && TerrainMap.Valid(t) && t.mapWidth >= 2 && t.mapHeight >= 2
    ensures r.center.x == c.center.x && r.center.z == c.center.z
    ensures r.center.y - radius >= Ground(sqrt, t, c.center.x, c.center.z)
    ensures r.center.y == Max(c.center.y, Ground(sqrt, t, c.center.x, c.center.z) + radius)
    ensures c.center.y - radius < Ground(sqrt, t, c.center.x, c.center.z) ==>
              r.hits == c.hits + [self] && r.normal == Add(c.normal, GroundNormal(sqrt, t, c.center.x, c.center.z))
    ensures c.center.y - radius >= Ground(sqrt, t, c.center.x, c.center.z) ==> r == c
  {
    var depth := Ground(sqrt, t, c.center.x, c.center.z) + radius - c.center.y;
    if depth > 0.0 then
      var center := Add(c.center, Vec3(0.0, depth, 0.0));
      Collision(c.hits + [self], center, Add(c.normal, GroundNormal(sqrt, t, center.x, center.z)))
    else c
  }

  /** A sphere the landscape has lifted rests on the ground: a second test changes nothing. */
  lemma LandscapeCollideSettles(sqrt: real -> real, t: TerrainMap.TerrainData, self: nat, radius: real, c: Collision)
    requires IsSqrt(sqrt) && TerrainMap.Valid(t) && t.mapWidth >= 2 && t.mapHeight >= 2
    ensures var r := LandscapeCollide(sqrt, t, self, radius, c);
            LandscapeCollide(sqrt, t, self, radius, r) == r
  {
    var r := LandscapeCollide(sqrt, t, self, radius, c);
    assert Ground(sqrt, t, r.center.x, r.center.z) == Ground(sqrt, t, c.center.x, c.center.z);
  }

  // ---------------------------------------------------------------- Forest

  /** A tree's capsule radius: the 4D length of its instance matrix's first column. */
  function TreeScale(sqrt: real -> real, m: Mat4): real {
    sqrt(Dot4(Col(m, 0), Col(m, 0)))
  }

  /**
   * The state Forest::collideSphere carries from tree to tree: the collision so far and the
   * last contact normal, which a contact along the capsule's axis leaves in place.
   */
  datatype ForestState = ForestState(c: Collision, contactNormal: Vec3)

  /** Whether a tree's capsule, checked with a third of the sphere's radius, is touched. */
  function TreeContact(sqrt: real -> real, m: Mat4, radius: real, s: ForestState): Sphere.Contact
    requires IsSqrt(sqrt) && LengthSq(Sub(TreeTop(m), TreeBottom(m))) > 0.0
  {
    Capsule.IntersectSphere(sqrt, TreeBottom(m), TreeTop(m), TreeScale(sqrt, m), s.c.center, radius / 3.0, s.contactNormal, 0.0)
  }

  /** One tree: on a contact the forest is recorded, the centre pushed out and the normal added. */
  function TreeStep(sqrt: real -> real, m: Mat4, self: nat, radius: real, s: ForestState): (r: ForestState)
    requires IsSqrt(sqrt) && LengthSq(Sub(TreeTop(m), TreeBottom(m))) > 0.0
    ensures !TreeContact(sqrt, m, radius, s).hit ==> r == s
    ensures TreeContact(sqrt, m, radius, s).hit ==>
              r.c.hits == s.c.hits + [self] && r.c.normal == Add(s.c.normal, r.contactNormal)
  {
    var contact := TreeContact(sqrt, m, radius, s);
    if contact.hit then
      ForestState(Collision(s.c.hits + [self], Add(s.c.center, Scale(contact.normal, contact.depth)),
                            Add(s.c.normal, contact.normal)), contact.normal)
    else s
  }

  /** A tree that pushes the sphere away along a proper normal leaves it just touching the tree's capsule. */
  lemma TreeStepTouches(sqrt: real -> real, m: Mat4, self: nat, radius: real, s: ForestState)
    requires IsSqrt(sqrt) && LengthSq(Sub(TreeTop(m), TreeBottom(m))) > 0.0
    requires TreeContact(sqrt, m, radius, s).hit
    requires Length(sqrt, Sub(s.c.center, Capsule.ClosestPoint(TreeBottom(m), TreeTop(m), s.c.center))) > FltEpsilon
    ensures var r := TreeStep(sqrt, m, self, radius, s);
            Sub(r.c.center, Capsule.ClosestPoint(TreeBottom(m), TreeTop(m), s.c.center))
            == Scale(r.contactNormal, radius / 3.0 + TreeScale(sqrt, m))
            && LengthSq(r.contactNormal) == 1.0
  {
    CapsulePushOut(sqrt, TreeBottom(m), TreeTop(m), TreeScale(sqrt, m), s.c.center, radius / 3.0, s.contactNormal, 0.0);
  }

  predicate TreesValid(instances: seq<Mat4>) {
    forall i :: 0 <= i < |instances| ==> LengthSq(Sub(TreeTop(instances[i]), TreeBottom(instances[i]))) > 0.0
  }

  /** The trees checked in list order. */
  function ForestFold(sqrt: real -> real, instances: seq<Mat4>, self: nat, radius: real, s: ForestState): ForestState
    requires IsSqrt(sqrt) && TreesValid(instances)
  {
    if |instances| == 0 then s
    else
      var last := instances[|instances| - 1];
      TreeStep(sqrt, last, self, radius, ForestFold(sqrt, instances[..|instances| - 1], self, radius, s))
  }

  /** The sphere test against the forest's bounding sphere that guards the trees. */
  function ForestGate(sqrt: real -> real, position: Vec3, boundingRadius: real, center: Vec3, radius: real): Sphere.Contact
    requires IsSqrt(sqrt)
  {
    Sphere.IntersectSphere(sqrt, position, boundingRadius, center, radius, Zero3, 0.0)
  }

  /**
   * Forest::collideSphere after its children: nothing when the sphere misses the forest's
   * bounding sphere, else every tree in turn, starting from the gate's contact normal.
   */
  function ForestCollide(sqrt: real -> real, position: Vec3, boundingRadius: real, instances: seq<Mat4>,
                         self: nat, radius: real, c: Collision): Collision
    requires IsSqrt(sqrt) && TreesValid(instances)
  {
    var gate := ForestGate(sqrt, position, boundingRadius, c.center, radius);
    if !gate.hit then c else ForestFold(sqrt, instances, self, radius, ForestState(c, gate.normal)).c
  }

  /** The trees only ever add the forest itself, at most once per tree, and nothing moves unless one is touched. */
  lemma {:induction false} ForestFoldHits(sqrt: real -> real, instances: seq<Mat4>, self: nat, radius: real, s: ForestState)
    requires IsSqrt(sqrt) && TreesValid(instances)
    ensures var r := ForestFold(sqrt, instances, self, radius, s);
            && |s.c.hits| <= |r.c.hits| <= |s.c.hits| + |instances|
            && r.c.hits[..|s.c.hits|] == s.c.hits
            && (forall k :: |s.c.hits| <= k < |r.c.hits| ==> r.c.hits[k] == self)
            && (|r.c.hits| == |s.c.hits| ==> r == s)
  {
    if |instances| > 0 {
      var front := instances[..|instances| - 1];
      ForestFoldHits(sqrt, front, self, radius, s);
      var mid := ForestFold(sqrt, front, self, radius, s);
      var r := TreeStep(sqrt, instances[|instances| - 1], self, radius, mid);
      if TreeContact(sqrt, instances[|instances| - 1], radius, mid).hit {
        assert r.c.hits[..|s.c.hits|] == mid.c.hits[..|s.c.hits|];
      }
    }
  }

  /**
   * Forest::collideSphere's loop over the instances, threading the contact normal from tree
   * to tree as the source's local variable does.
   */
  method CollideTrees(sqrt: real -> real, position: Vec3, boundingRadius: real, instances: seq<Mat4>,
                      self: nat, radius: real, c: Collision) returns (r: Collision)
    requires IsSqrt(sqrt) && TreesValid(instances)
    ensures r == ForestCollide(sqrt, position, boundingRadius, instances, self, radius, c)
  {
    var gate := ForestGate(sqrt, position, boundingRadius, c.center, radius);
    if !gate.hit {
      return c;
    }
    var s := ForestState(c, gate.normal);
    var i := 0;
    while i < |instances|
      invariant 0 <= i <= |instances|
      invariant s == ForestFold(sqrt, instances[..i], self, radius, ForestState(c, gate.normal))
    {
      assert instances[..i + 1][..i] == instances[..i];
      s := TreeStep(sqrt, instances[i], self, radius, s);
      i := i + 1;
    }
    assert instances[..i] == instances;
    r := s.c;
  }

  // ---------------------------------------------------------------- Teapot

  /** The teapot's capsule: from its position two units up, with half its bounding radius. */
  function TeapotContact(sqrt: real -> real, position: Vec3, boundingRadius: real, center: Vec3, radius: real): Sphere.Contact
    requires IsSqrt(sqrt)
  {
    Capsule.IntersectSphere(sqrt, position, TeapotTop(position), boundingRadius / 2.0, center, radius, UnitY, 0.0)
  }

  /** The top of the teapot's capsule, two units above its position. */
  function TeapotTop(position: Vec3): (top: Vec3)
    ensures Sub(top, position) == Vec3(0.0, 2.0, 0.0) && LengthSq(Sub(top, position)) == 4.0
  {
    Add(position, Vec3(0.0, 2.0, 0.0))
  }

  /**
   * With the default bounding radius 0 the teapot's capsule has no thickness: a sphere touches
   * it only when its centre is nearer than its own radius to the two-unit segment.
   */
  lemma ZeroRadiusTeapotContact(sqrt: real -> real, position: Vec3, center: Vec3, radius: real)
    requires IsSqrt(sqrt)
    ensures var d := Length(sqrt, Sub(center, Capsule.ClosestPoint(position, TeapotTop(position), center)));
            var r := TeapotContact(sqrt, position, 0.0, center, radius);
            && (r.hit <==> d < radius)
            && (r.hit ==> r.depth == radius - d)
  {
  }

  /**
   * Teapot::collideSphere after its children, as written: on a contact the teapot is recorded,
   * the centre pushed out, and the normal REPLACED by the contact normal.
   */
  function TeapotCollideAsWritten(sqrt: real -> real, self: nat, position: Vec3, boundingRadius: real,
                                  radius: real, c: Collision): (r: Collision)
    requires IsSqrt(sqrt)
    ensures TeapotContact(sqrt, position, boundingRadius, c.center, radius).hit ==>
              r.normal == TeapotContact(sqrt, position, boundingRadius, c.center, radius).normal
  {
    var contact := TeapotContact(sqrt, position, boundingRadius, c.center, radius);
    if contact.hit then Collision(c.hits + [self], Add(c.center, Scale(contact.normal, contact.depth)), contact.normal)
    else c
  }

  /**
   * Teapot::collideSphere with the normal ADDED, as every other object does: the normals
   * gathered before the teapot survive it.
   */
  function TeapotCollide(sqrt: real -> real, self: nat, position: Vec3, boundingRadius: real,
                         radius: real, c: Collision): (r: Collision)
    requires IsSqrt(sqrt)
    ensures var contact := TeapotContact(sqrt, position, boundingRadius, c.center, radius);
            && (!contact.hit ==> r == c)
            && (contact.hit ==> r.hits == c.hits + [self] && Sub(r.normal, c.normal) == contact.normal)
            && (contact.hit ==> r.center == TeapotCollideAsWritten(sqrt, self, position, boundingRadius, radius, c).center)
  {
    var contact := TeapotContact(sqrt, position, boundingRadius, c.center, radius);
    if contact.hit then
      AddThenSub(c.normal, contact.normal);
      Collision(c.hits + [self], Add(c.center, Scale(contact.normal, contact.depth)), Add(c.normal, contact.normal))
    else c
  }

  /**
   * The written teapot forgets the normals gathered before it: on a contact its normal is the
   * same whatever normal it was given, so a sphere that touched a wall (normal (1, 0, 0))
   * before resting on the teapot comes back with the teapot's normal alone, where the sum
   * keeps the wall's share.
   */
  lemma TeapotForgetsEarlierNormals(sqrt: real -> real, self: nat, position: Vec3, boundingRadius: real, radius: real,
                                    c: Collision, earlier: Vec3)
    requires IsSqrt(sqrt) && TeapotContact(sqrt, position, boundingRadius, c.center, radius).hit
    ensures TeapotCollideAsWritten(sqrt, self, position, boundingRadius, radius, c.(normal := earlier)).normal
            == TeapotCollideAsWritten(sqrt, self, position, boundingRadius, radius, c).normal
    ensures TeapotCollide(sqrt, self, position, boundingRadius, radius, c.(normal := earlier)).normal
            == Add(TeapotCollideAsWritten(sqrt, self, position, boundingRadius, radius, c).normal, earlier)
    ensures earlier != Zero3 ==>
              TeapotCollide(sqrt, self, position, boundingRadius, radius, c.(normal := earlier)).normal
              != TeapotCollideAsWritten(sqrt, self, position, boundingRadius, radius, c.(normal := earlier)).normal
  {
    var contact := TeapotContact(sqrt, position, boundingRadius, c.center, radius);
    var given := c.(normal := earlier);
    assert given.center == c.center;
    if earlier != Zero3 {
      AddNonZeroMoves(earlier, contact.normal);
    }
  }

  /** A teapot that pushes the sphere away along a proper normal leaves it just touching its capsule. */
  lemma TeapotCollideTouches(sqrt: real -> real, self: nat, position: Vec3, boundingRadius: real, radius: real, c: Collision)
    requires IsSqrt(sqrt)
    requires TeapotContact(sqrt, position, boundingRadius, c.center, radius).hit
    requires var top := TeapotTop(position);
             Length(sqrt, Sub(c.center, Capsule.ClosestPoint(position, top, c.center))) > FltEpsilon
    ensures var top := TeapotTop(position);
            var contact := TeapotContact(sqrt, position, boundingRadius, c.center, radius);
            Sub(TeapotCollideAsWritten(sqrt, self, position, boundingRadius, radius, c).center, Capsule.ClosestPoint(position, top, c.center))
            == Scale(contact.normal, radius + boundingRadius / 2.0)
            && LengthSq(contact.normal) == 1.0
  {
    CapsulePushOut(sqrt, position, TeapotTop(position), boundingRadius / 2.0, c.center, radius, UnitY, 0.0);
  }

  // ---------------------------------------------------------------- Dummy

  /**
   * The in/out parameters of intersectLine: the object hit so far (the return value), the
   * remaining ray length and the normal at the hit.
   */
  datatype LineHit = LineHit(target: Option<nat>, length: real, normal: Vec3)

  /** The dummy's hit sphere: radius 4 around its world position. */
  const DummyHitRadius: real := 4.0

  /**
   * Dummy::intersectLine after its children: a ray meeting the sphere of radius 4 around the
   * dummy's world position nearer than the current length is cut there, with the normal
   * pointing from the dummy back to the ray's origin, and the dummy becomes the target.
   */
  function DummyIntersect(sqrt: real -> real, self: nat, worldPosition: Vec3, origin: Vec3, dir: Vec3, h: LineHit): (r: LineHit)
    requires IsSqrt(sqrt) && LengthSq(dir) > 0.0
    ensures r.length <= h.length
    ensures r.length < h.length <==> r.target == Some(self) && r != h
    ensures r != h ==> r == LineHit(Some(self), r.length, Sub(origin, worldPosition)) && r.length >= 0.0
  {
    var ray := Sphere.IntersectCulledRay(sqrt, worldPosition, DummyHitRadius, origin, dir, h.length);
    if ray.hit && ray.distance < h.length then LineHit(Some(self), ray.distance, Sub(origin, worldPosition))
    else h
  }

  /**
   * From outside the dummy's sphere, a ray it cuts meets the sphere's surface at the new
   * length and nowhere nearer; from inside, the ray is cut at its origin.
   */
  lemma DummyHitIsNearestSurfacePoint(sqrt: real -> real, self: nat, worldPosition: Vec3, origin: Vec3, dir: Vec3, h: LineHit)
    requires IsSqrt(sqrt) && LengthSq(dir) > 0.0
    ensures var r := DummyIntersect(sqrt, self, worldPosition, origin, dir, h);
            && (r != h && Sphere.QuadC(worldPosition, DummyHitRadius, origin) >= 0.0 ==>
                  Sphere.MeetsSurface(worldPosition, DummyHitRadius, origin, dir, r.length)
                  && forall t :: 0.0 <= t < r.length ==> !Sphere.MeetsSurface(worldPosition, DummyHitRadius, origin, dir, t))
            && (Sphere.QuadC(worldPosition, DummyHitRadius, origin) < 0.0 && h.length > 0.0 ==> r.length == 0.0)
            && (r == h && Sphere.QuadC(worldPosition, DummyHitRadius, origin) >= 0.0 ==>
                  forall t :: 0.0 <= t < h.length ==> !Sphere.MeetsSurface(worldPosition, DummyHitRadius, origin, dir, t))
  {
    if Sphere.QuadC(worldPosition, DummyHitRadius, origin) >= 0.0 {
      Sphere.CulledAgreesWithHullOutside(sqrt, worldPosition, DummyHitRadius, origin, dir, h.length);
      Sphere.HullHitIsNearestSurfacePoint(sqrt, worldPosition, DummyHitRadius, origin, dir, h.length);
    }
  }

  // ---------------------------------------------------------------- the graph walk

  /** The classes that answer collideSphere themselves. */
  predicate Collides(nodes: Arena, x: nat) {
    x in nodes && (nodes[x].kind.Landscape? || nodes[x].kind.Forest? || nodes[x].kind.Teapot?)
  }

  /**
   * What a node's own collideSphere adds after its children: the landscape, forest and teapot
   * parts above, nothing for the others. The forest and the teapot use their local position;
   * the teapot overwrites the gathered normal, as the source does.
   */
  function SelfCollide(sqrt: real -> real, nodes: Arena, id: nat, radius: real, c: Collision): Collision
    requires IsSqrt(sqrt) && Sound(nodes) && id in nodes
  {
    var n := nodes[id];
    match n.kind
    case Landscape(t) => LandscapeCollide(sqrt, t, id, radius, c)
    case Forest(instances) => ForestCollide(sqrt, n.position, n.radius, instances, id, radius, c)
    case Teapot => TeapotCollideAsWritten(sqrt, id, n.position, n.radius, radius, c)
    case _ => c
  }

  /**
   * collideSphere on node id: the children in list order, skipping the excluded object and
   * everything below it, then the node's own part. The fuel bounds the depth.
   */
  function CollideNode(sqrt: real -> real, nodes: Arena, id: nat, exclude: Option<nat>, radius: real, c: Collision, fuel: nat): Collision
    requires IsSqrt(sqrt) && Sound(nodes) && id in nodes
    decreases fuel, 1, 0
  {
    var below := if fuel == 0 then c else CollideChildren(sqrt, nodes, nodes[id].children, exclude, radius, c, fuel - 1);
    SelfCollide(sqrt, nodes, id, radius, below)
  }

  /** collideSphere with depth left: the node's own part after its children's. */
  lemma CollideNodeUnfold(sqrt: real -> real, nodes: Arena, id: nat, exclude: Option<nat>, radius: real, c: Collision, rest: nat)
    requires IsSqrt(sqrt) && Sound(nodes) && id in nodes
    ensures CollideNode(sqrt, nodes, id, exclude, radius, c, rest + 1)
            == SelfCollide(sqrt, nodes, id, radius, CollideChildren(sqrt, nodes, nodes[id].children, exclude, radius, c, rest))
  {
  }

  function CollideChildren(sqrt: real -> real, nodes: Arena, cs: seq<nat>, exclude: Option<nat>, radius: real,
                           c: Collision, fuel: nat): Collision
    requires IsSqrt(sqrt) && Sound(nodes) && forall x :: x in cs ==> x in nodes
    decreases fuel, 2, |cs|
  {
    if |cs| == 0 then c
    else
      var before := CollideChildren(sqrt, nodes, cs[..|cs| - 1], exclude, radius, c, fuel);
      var last := cs[|cs| - 1];
      if Some(last) == exclude then before else CollideNode(sqrt, nodes, last, exclude, radius, before, fuel)
  }

  /**
   * A collision step that keeps what was gathered, records only objects that collide, and
   * moves nothing unless it records one.
   */
  predicate Grows(nodes: Arena, c: Collision, r: Collision) {
    && |c.hits| <= |r.hits| && r.hits[..|c.hits|] == c.hits
    && (forall k :: |c.hits| <= k < |r.hits| ==> Collides(nodes, r.hits[k]))
    && (|r.hits| == |c.hits| ==> r == c)
  }

  lemma GrowsTransitive(nodes: Arena, a: Collision, b: Collision, c: Collision)
    requires Grows(nodes, a, b) && Grows(nodes, b, c)
    ensures Grows(nodes, a, c)
  {
    assert c.hits[..|a.hits|] == c.hits[..|b.hits|][..|a.hits|];
    forall k | |a.hits| <= k < |c.hits| ensures Collides(nodes, c.hits[k]) {
      if k < |b.hits| {
        assert c.hits[k] == c.hits[..|b.hits|][k];
      }
    }
  }

  lemma SelfCollideGrows(sqrt: real -> real, nodes: Arena, id: nat, radius: real, c: Collision)
    requires IsSqrt(sqrt) && Sound(nodes) && id in nodes
    ensures Grows(nodes, c, SelfCollide(sqrt, nodes, id, radius, c))
  {
    var n := nodes[id];
    var r := SelfCollide(sqrt, nodes, id, radius, c);
    match n.kind
    case Forest(instances) =>
      var gate := ForestGate(sqrt, n.position, n.radius, c.center, radius);
      if gate.hit {
        ForestFoldHits(sqrt, instances, id, radius, ForestState(c, gate.normal));
      }
    case Landscape(t) =>
      if |r.hits| > |c.hits| {
        assert r.hits == c.hits + [id];
      }
    case Teapot =>
      if |r.hits| > |c.hits| {
        assert r.hits == c.hits + [id];
      }
    case _ =>
  }

  /**
   * collideSphere keeps the collisions it was given, adds only landscapes, forests and
   * teapots, and leaves the centre and the normal alone when it adds none.
   */
  lemma {:induction false} CollideNodeGrows(sqrt: real -> real, nodes: Arena, id: nat, exclude: Option<nat>, radius: real,
                                            c: Collision, fuel: nat)
    requires IsSqrt(sqrt) && Sound(nodes) && id in nodes
    ensures Grows(nodes, c, CollideNode(sqrt, nodes, id, exclude, radius, c, fuel))
    decreases fuel, 1, 0
  {
    var below := if fuel == 0 then c else CollideChildren(sqrt, nodes, nodes[id].children, exclude, radius, c, fuel - 1);
    if fuel > 0 {
      CollideChildrenGrow(sqrt, nodes, nodes[id].children, exclude, radius, c, fuel - 1);
    }
    SelfCollideGrows(sqrt, nodes, id, radius, below);
    GrowsTransitive(nodes, c, below, SelfCollide(sqrt, nodes, id, radius, below));
  }

  lemma {:induction false} CollideChildrenGrow(sqrt: real -> real, nodes: Arena, cs: seq<nat>, exclude: Option<nat>, radius: real,
                                               c: Collision, fuel: nat)
    requires IsSqrt(sqrt) && Sound(nodes) && forall x :: x in cs ==> x in nodes
    ensures Grows(nodes, c, CollideChildren(sqrt, nodes, cs, exclude, radius, c, fuel))
    decreases fuel, 2, |cs|
  {
    if |cs| > 0 {
      var before := CollideChildren(sqrt, nodes, cs[..|cs| - 1], exclude, radius, c, fuel);
      var last := cs[|cs| - 1];
      CollideChildrenGrow(sqrt, nodes, cs[..|cs| - 1], exclude, radius, c, fuel);
      if Some(last) != exclude {
        CollideNodeGrows(sqrt, nodes, last, exclude, radius, before, fuel);
        GrowsTransitive(nodes, c, before, CollideNode(sqrt, nodes, last, exclude, radius, before, fuel));
      }
    }
  }
}

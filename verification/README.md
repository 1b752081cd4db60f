# Ununoctium core, modelled in Dafny

Ununoctium is a small first-person shooter written in C++ on Qt and OpenGL: the player walks over a
height-mapped island, shoots training dummies with a laser, collects power-ups and watches a
day/night sky. This project models the part of the game that decides things, leaving out the part
that draws them:

- **geometry**: ray/triangle, ray/sphere, sphere/sphere and sphere/capsule tests, the view-frustum
  planes, triangle fans and strips, vector helpers, and vertex equality (modules `Triangle`, `Sphere`,
  `Capsule`, `Frustum`, `Intersection`, `Vector`, `Vertex`, `Math3D`);
- **terrain**: the map/world coordinate conversions, the construction of the vertex grid, index
  strip, normals and smoothing, and the height, normal, triangle and line queries (`TerrainMap`,
  `TerrainBuild`, `TerrainQuery`);
- **scene graph**: objects with their local transform, dirty flag and cached model matrix; children,
  update/draw traversal order, line intersection and sphere collision; the landscape with its patch
  filters, the forest and grass placement, the teapot (`SceneNode`, `SceneGraph`, `Collision`,
  `LandscapeFilter`, `Vegetation`, `Scene`, `Eye`);
- **gameplay**: the creature states, the dummy's and the player's state machines, damage, armour,
  points and messages, the laser's heat and ammunition, power-up respawn and pickup, and the world
  clock, level, light sources and enemy respawn (`Creature`, `Dummy`, `Player`, `Laser`, `PowerUp`,
  `World`, `Sky`);
- **effects**: the particle pool with its emission, update and quad filling, and the blood
  splatter system built on it (`Particles`, `Splatter`);
- **resources**: the resource cache, materials with their quality levels and texture-unit
  numbering, the OBJ model parser with vertex de-duplication and parts, and the RIFF WAVE header
  reader over a byte sequence (`Resource`, `Material`, `Quality`, `StaticModel`, `RiffWave`).

Shared helpers live in `Wrappers` (Option), `Sequences` and `Text`. The game's C `float`s are
modelled as mathematical reals; square roots, random draws, clocks and anything the program reads
from the graphics driver are given as parameters. Where the source mutates an object in place (the
scene graph, the creatures, the laser, the particle pool, the materials, the world) the model is a
`class` whose methods are proved against specification functions; the stateless helpers are
functions with lemmas. Where a contract exposed a defect in the source, the operations keep
the code's behaviour as written, and a corrected definition beside them carries the intended
property (see "## Findings").

## Model

| member | source | states |
|---|---|---|
| Capsule.SegmentFactor | src/utility/Capsule.cpp:35-38 | the projection factor is clamped into [0, 1], so the closest point start + (end - start) * factor lies on the segment; a degenerate segment (start = end) is excluded |
| Capsule.IntersectSphere | src/utility/Capsule.cpp:32-54 | hit iff the distance from the centre to the closest point is strictly less than rSphere + rCapsule; on a hit depth = radii - distance > 0 and, when distance > FLT_EPSILON, the normal is the unit vector with normal * distance = centre - closest; on a miss both out-parameters are unchanged |
| Capsule.ClosestPointIsNearest | src/utility/Capsule.cpp:36-39 | the clamped projection is the point of the segment nearest to the centre: no point start + (end - start) t with t in [0, 1] is closer |
| Collision.CapsulePushOut | src/utility/Capsule.cpp:41-50 | moving the centre by normal * depth after a capsule hit (with a distance above FLT_EPSILON) leaves it exactly the sum of the radii from the closest point, along a unit normal: the sphere just touches the capsule |
| Collision.Ground | src/scene/object/Landscape.cpp:356-368 | the ground a landscape tests against: getHeight's height (truncating lookup) where it succeeds, the terrain offset's y elsewhere |
| Collision.GroundNormal | src/scene/object/Landscape.cpp:356-373 | the normal a landscape adds: getNormal at the point where getHeight succeeds, straight up elsewhere |
| Collision.LandscapeCollide | src/scene/object/Landscape.cpp:352-380 | with the ground from getHeight (the truncating cell lookup), the sphere is lifted straight up to rest on the ground (terrain height, or the offset plane off the terrain) exactly when it reaches below it, the landscape is then recorded and the ground normal added; otherwise nothing changes; x and z never change |
| Collision.LandscapeCollideSettles | src/scene/object/Landscape.cpp:357-378 | a sphere the landscape has lifted (ground from the truncating getHeight) rests on the ground: testing it again changes nothing |
| Collision.TreeStep | src/scene/object/environment/Forest.cpp:103-112 | a tree's capsule, checked with a third of the radius, records the forest and adds the contact normal exactly on a hit, and changes nothing otherwise |
| Collision.TreeStepTouches | src/scene/object/environment/Forest.cpp:103-109 | a tree that pushes the sphere away along a proper normal leaves the centre a third of the radius plus the tree scale from the capsule's axis |
| Collision.TreeContact | src/scene/object/environment/Forest.cpp:103-106 | one tree's capsule test: from the instance's bottom to its top, with the tree scale as radius, against a third of the sphere's radius |
| Collision.ForestFold | src/scene/object/environment/Forest.cpp:101-112 | the trees tested in order, each on the state the ones before it left |
| Collision.ForestCollide | src/scene/object/environment/Forest.cpp:92-115 | Forest::collideSphere's own part: nothing unless the bounding sphere is touched, then the fold over the trees |
| Collision.ForestFoldHits | src/scene/object/environment/Forest.cpp:101-113 | the trees add only the forest itself, at most once per tree, keep the earlier collisions in front, and move nothing unless one is touched |
| Collision.CollideTrees | src/scene/object/environment/Forest.cpp:92-116 | the forest's loop yields nothing when the bounding sphere is missed, else the fold over the trees threading the contact normal |
| Collision.TeapotTop | src/scene/object/Teapot.cpp:102 | the teapot's capsule runs two units straight up from its position |
| Collision.TeapotContact | src/scene/object/Teapot.cpp:102 | the teapot's capsule test: from its position two units up, half the bounding radius thick |
| Collision.ZeroRadiusTeapotContact | src/scene/object/Teapot.cpp:102 | with the default bounding radius 0 the teapot's capsule is a bare segment: a sphere touches it exactly when its centre is nearer than its radius, and the depth is the radius minus that distance |
| Collision.TeapotCollideAsWritten | src/scene/object/Teapot.cpp:102-108 | as written: on a contact the accumulated normal is replaced by the contact normal |
| Collision.TeapotCollide | src/scene/object/Teapot.cpp:88-111 | corrected: the teapot is recorded and the contact normal added on a contact, nothing changes otherwise, and the centre moves as written |
| Collision.TeapotForgetsEarlierNormals | src/scene/object/Teapot.cpp:106-107 | the written teapot's normal is the same whatever normal was gathered before; the corrected one adds to it, and the two differ whenever an earlier normal is non-zero |
| Collision.TeapotCollideTouches | src/scene/object/Teapot.cpp:102-105 | a contact of the teapot as written, with a proper normal, leaves the centre the radius plus half the bounding radius from the capsule's axis |
| Collision.DummyIntersect | src/scene/object/creature/Dummy.cpp:136-153 | the ray length never grows; it shrinks exactly when the dummy becomes the target, with the normal from the dummy's world position to the origin and a non-negative length |
| Collision.DummyHitIsNearestSurfacePoint | src/scene/object/creature/Dummy.cpp:140-149 | from outside the radius-4 sphere the cut length meets its surface and no shorter length does; from inside the ray is cut at its origin; an uncut ray meets the surface nowhere before its length |
| Collision.SelfCollide | src/scene/object/Landscape.cpp:352-380 | the per-class override of collideSphere after its children (this landscape one, and those of Forest.cpp and Teapot.cpp): a node's own collideSphere part by class: the landscape's ground, the forest's trees, the teapot as written, nothing for the others |
| Collision.CollideNode | src/scene/object/AObject.cpp:225-236 | collideSphere on a node: its children's part first, then its own |
| Collision.CollideChildren | src/scene/object/AObject.cpp:228-235 | the children in list order, the excluded one skipped, each on what the ones before it left |
| Collision.CollideNodeUnfold | src/scene/object/AObject.cpp:225-236 | collideSphere on a node runs its children first, then the node's own part |
| Collision.GrowsTransitive | src/scene/object/AObject.cpp:230-234 | gathering collisions child after child composes |
| Collision.SelfCollideGrows | src/scene/object/Landscape.cpp:352-380 | each node's own part keeps the collisions so far, adds only landscapes, forests or teapots, and moves nothing unless it adds one |
| Collision.CollideNodeGrows | src/scene/object/AObject.cpp:225-236 | collideSphere keeps the collisions it was given, adds only landscapes, forests and teapots, and leaves the centre and the normal alone when it adds none |
| Collision.CollideChildrenGrow | src/scene/object/AObject.cpp:228-235 | the children's collisions, the excluded one skipped, extend the gathered ones in the same way |
| Creature.Damaged | src/scene/object/creature/ACreature.hpp:55-56 | life after damage is life minus damage when that is non-negative, and 0 otherwise; it is never negative |
| Creature.DamageMonotone | src/scene/object/creature/ACreature.hpp:55-56 | more damage never leaves more life |
| Creature.DamageAccumulates | src/scene/object/creature/ACreature.hpp:55-56 | two hits of non-negative damage act as one hit of their sum |
| Creature.Creature.constructor | src/scene/object/creature/ACreature.hpp:47-65 | a creature starts with the state and life its concrete kind gives it |
| Creature.Creature.ReceiveDamage | src/scene/object/creature/ACreature.hpp:55-56 | receiveDamage lowers life by the damage, stopping at 0, and leaves the state alone |
| Creature.Creature.SetState | src/scene/object/creature/ACreature.hpp:58 | stores the state |
| Creature.Creature.SetLife | src/scene/object/creature/ACreature.hpp:59 | stores any life value, negative included |
| Dummy.StateStep | src/scene/object/creature/Dummy.cpp:65-95 | a spawning dummy comes alive with 100 life and height 6, 10 above its spawn point; an alive one moves and starts dying once its life is gone; a dying one dies with height 3; a dead one is unchanged |
| Dummy.Gravity | src/scene/object/creature/Dummy.cpp:97-98 | gravity changes only the vertical velocity and the height of the position |
| Dummy.Clamp | src/scene/object/creature/Dummy.cpp:100-109 | where the terrain height is known, the dummy ends at least its height above it and an upward velocity is kept while a downward one stops; where it is unknown, nothing changes; only the height and velocity can change |
| Dummy.Update | src/scene/object/creature/Dummy.cpp:63-110 | one update: the life-cycle step, then gravity, then the clamp against the ground height under the new position |
| Dummy.UpdateLifeCycle | src/scene/object/creature/Dummy.cpp:63-110 | over one update: SPAWNING becomes ALIVE with 100 life, ALIVE becomes DYING exactly when life is gone, DYING and DEAD end DEAD, and life changes only on spawning |
| Dummy.UpdateStaysAboveGround | src/scene/object/creature/Dummy.cpp:97-109 | after an update over known terrain the dummy stands at least its height above ground |
| Dummy.SpraySize | src/scene/object/creature/Dummy.cpp:165-168 | the splatter spray is the damage, and half the damage for a dead dummy |
| Dummy.Dummy.constructor | src/scene/object/creature/Dummy.cpp:37-45 | a dummy starts at height 6 above ground with no vertical velocity |
| Dummy.Dummy.UpdateSelf | src/scene/object/creature/Dummy.cpp:63-110 | the new state is the state step followed by gravity and the ground clamp |
| Dummy.Dummy.ReceiveDamage | src/scene/object/creature/Dummy.cpp:156-169 | the base damage is applied, nothing else about the dummy changes, and the spray has the spray size |
| Eye.Lookup | src/scene/object/Eye.cpp:117-126 | a plane number is found exactly when some stored pair carries it, and the plane found is the one stored with it |
| Eye.Insert | src/scene/object/Eye.cpp:124 | storing a plane under n keeps the map ordered by key, makes n give that plane and leaves every other number's plane alone |
| Eye.Remove | src/scene/object/Eye.cpp:122 | removing n keeps the map ordered, makes n give nothing and leaves every other number's plane alone |
| Eye.InsertThenRemove | src/scene/object/Eye.cpp:117-126 | storing a plane under a free number and removing it again gives back the same map |
| Eye.KeysInOrder | src/scene/object/Eye.cpp:131-137 | a walk over the map visits each stored plane number once, in increasing order |
| Eye.Eye.constructor | src/scene/object/Eye.cpp:32-44 | a new eye sits at the origin with identity rotation, unit scale, a 60 degree field of view, aspect 1, near plane 0.1 and far plane 500, follows nothing and has no clipping plane |
| Eye.Eye.Copy | src/scene/object/Eye.cpp:47-59 | a copied eye takes the other's pose, scale and projection and view parameters, and follows nothing and has no clipping plane |
| Eye.Eye.Update | src/scene/object/Eye.cpp:67-76 | when the followed object still exists the eye takes its position and rotation; the velocity times delta is the distance moved since the last frame, and the position becomes the last one |
| Eye.Eye.SetClippingPlane | src/scene/object/Eye.cpp:117-126 | a null plane removes plane n, any other is stored under n, and no other plane changes |
| Eye.Eye.EnableClippingPlanes | src/scene/object/Eye.cpp:141-149 | exactly the stored plane numbers are switched on, each once, in increasing order |
| Eye.Eye.DisableClippingPlanes | src/scene/object/Eye.cpp:152-160 | exactly the stored plane numbers are switched off, each once, in increasing order |
| Eye.Eye.ApplyClippingPlanes | src/scene/object/Eye.cpp:129-138 | every stored plane is loaded under its number, each once, in increasing order, and nothing else is loaded |
| Eye.Eye.Attach | src/scene/object/Eye.cpp:163-166 | the eye follows the given object |
| Eye.Eye.Detach | src/scene/object/Eye.cpp:169-172 | the eye follows nothing |
| Frustum.NormalisedPlane | src/utility/FrustumTest.cpp:60-81 | each stored plane is its raw row combination divided by the length of its xyz part, so its normal has unit length (a non-zero length is required) |
| Frustum.Planes | src/utility/FrustumTest.cpp:57-81 | six planes, in the order right, left, bottom, top, far, near, each the normalised combination of row 3 with row 0, 1 or 2 of the clip matrix |
| Frustum.PointInside | src/utility/FrustumTest.cpp:85-91 | isPointInFrustum's condition: n . p + w > 0 on every plane |
| Frustum.SphereInside | src/utility/FrustumTest.cpp:94-100 | isSphereInFrustum's condition: n . c + w > -radius on every plane |
| Frustum.SphereMonotoneInRadius | src/utility/FrustumTest.cpp:94-100 | a sphere accepted with radius r is accepted with every r' >= r |
| Frustum.PointInsideImpliesSphereInside | src/utility/FrustumTest.cpp:85-100 | a point inside the frustum is accepted as a sphere of any radius >= 0 |
| Frustum.NormalisationKeepsSide | src/utility/FrustumTest.cpp:61 | dividing a plane by a positive length keeps the side a point is on |
| Frustum.RawSideMeaning | src/utility/FrustumTest.cpp:59-80 | each raw plane is positive exactly where its clip-space inequality holds (x < w for right, -w < x for left, and so on) |
| Frustum.SideMeaning | src/utility/FrustumTest.cpp:59-81 | the same for each normalised plane |
| Frustum.PointInsideIffInClipVolume | src/utility/FrustumTest.cpp:55-91 | a point passes the point test iff its clip coordinates satisfy -w < x, y, z < w |
| Frustum.FrustumTest.constructor | src/utility/FrustumTest.hpp:36-50 | six planes, all zero |
| Frustum.FrustumTest.Sync | src/utility/FrustumTest.cpp:55-82 | the stored planes become the planes of perspective * modelView |
| Frustum.FrustumTest.IsPointInFrustum | src/utility/FrustumTest.cpp:85-91 | true iff n . p + w > 0 for all six planes (strict) |
| Frustum.FrustumTest.IsSphereInFrustum | src/utility/FrustumTest.cpp:94-100 | true iff n . c + w > -radius for all six planes |
| Frustum.RawPlane | src/utility/FrustumTest.cpp:59-80 | the unnormalised plane of each side: row 3 of the clip matrix minus row 0 (right), plus row 0 (left), plus row 1 (bottom), minus row 1 (top), minus row 2 (far), plus row 2 (near) |
| Intersection.FirstFromIsFirstHit | src/utility/Intersection.cpp:35-50 | scanning triangles in index order returns the first one that hits (none before it hits); a miss means none hits and the distance is untouched |
| Intersection.FanFrom | src/utility/Intersection.cpp:35-50 | the fan's triangles from index i to last, tested in index order; the first that hits decides, indices outside the data miss |
| Intersection.StripFrom | src/utility/Intersection.cpp:62-77 | the same for the strip's triangles |
| Intersection.IntersectTriangleFan | src/utility/Intersection.cpp:28-51 | the sliding window loop computes the fan scan: triangles (v[first], v[i-1], v[i]) for i = first+2 .. last, both windings, two-sided test |
| Intersection.IntersectTriangleStrip | src/utility/Intersection.cpp:55-78 | the sliding window loop computes the strip scan: triangles (v[i-2], v[i-1], v[i]), both windings, culled test |
| Intersection.FanIsFirstHit | src/utility/Intersection.cpp:44-47 | the fan's result is the first fan triangle that hits, not the nearest; a miss leaves the distance alone |
| Intersection.StripIsFirstHit | src/utility/Intersection.cpp:71-74 | the same for the strip's triangles |
| Intersection.StripDistanceNonNegative | src/utility/Intersection.cpp:71-72 | a strip hit is never behind the origin, because the strip uses the culled test (the fan may report negative distances) |
| LandscapeFilter.United | src/scene/object/Landscape.cpp:541-548 | QRectF::united: a null operand yields the other rectangle unchanged |
| LandscapeFilter.NonNullExtent | src/scene/object/Landscape.cpp:551 | normalised edges are ordered, and a rectangle is non-null exactly when it has a positive extent along some axis |
| LandscapeFilter.UnitedIsBoundingBox | src/scene/object/Landscape.cpp:541-548 | the union of two non-null rectangles is non-null, contains both, and lies within every rectangle containing both |
| LandscapeFilter.Intersected | src/scene/object/Landscape.cpp:418 | QRect::intersected: a null operand gives the null rectangle |
| LandscapeFilter.IntersectedCells | src/scene/object/Landscape.cpp:418 | for normalised rectangles the intersection is normalised and covers exactly the cells both cover |
| LandscapeFilter.BlobPatchMap | src/scene/object/Landscape.cpp:414-441 | a blob is drawn only when its priority is at least 99 - quality, and then exactly its intersection with the visible rectangle, which is more than one cell wide and high |
| LandscapeFilter.BlobDrawnIffSharedBlock | src/scene/object/Landscape.cpp:414-420 | a blob is drawn exactly when the priority passes and it shares a 2 x 2 block of cells with the visible rectangle; what is drawn is exactly the cells both cover |
| LandscapeFilter.MakePatch | src/scene/object/Landscape.cpp:450-456 | a patch keeps its position and size, and its bounding radius is half the length of its size |
| LandscapeFilter.PatchSphereContainsBox | src/scene/object/Landscape.cpp:454-455 | the bounding sphere around the box's centre contains every point of the box |
| LandscapeFilter.SphereAroundInsidePoint | src/scene/object/Landscape.cpp:539 | a sphere around a point inside the frustum (unit plane normals) passes the sphere test |
| LandscapeFilter.CullingKeepsPatchWithPointInside | src/scene/object/Landscape.cpp:521-539 | the culling is conservative: a patch moved with the eye that has a point inside the frustum is never culled |
| LandscapeFilter.GridTilesAlongX | src/scene/object/Landscape.cpp:495-506 | the patches of a row start at -farPlane, each starts where its left neighbour ends, and the last ends at farPlane |
| LandscapeFilter.GridTilesAlongZ | src/scene/object/Landscape.cpp:495-506 | the same between rows along z |
| LandscapeFilter.CellAlongAxis | src/scene/object/Landscape.cpp:498-505 | each coordinate in [-farPlane, farPlane) falls in exactly the grid step of some cell index below the grid size |
| LandscapeFilter.GridCoversSquare | src/scene/object/Landscape.cpp:495-508 | every ground point of the square [-farPlane, farPlane)^2 lies in some grid patch |
| LandscapeFilter.GridIndex | src/scene/object/Landscape.cpp:506 | the row-major index z*W + x lies inside the W x H array and maps back to (x, z) |
| LandscapeFilter.RowIndices | src/scene/object/Landscape.cpp:519-521 | the indices of row z are z*W + x for the row's columns x |
| LandscapeFilter.RowUnionIsBoundingBox | src/scene/object/Landscape.cpp:518-550 | a row's merged rectangle is null exactly when no patch in it is visible, and otherwise it is the bounding box of the visible patches' rectangles |
| LandscapeFilter.Rows | src/scene/object/Landscape.cpp:516-521 | the grid splits into rows of exactly W patches |
| LandscapeFilter.RowCount | src/scene/object/Landscape.cpp:516 | a W x H grid has H rows |
| LandscapeFilter.DrawnRowsStep | src/scene/object/Landscape.cpp:516-555 | drawing one more row appends its union exactly when it is not null |
| LandscapeFilter.DrawnRowsAreVisibleRows | src/scene/object/Landscape.cpp:512-556 | the drawn rectangles are non-null row unions, at most one per row, and every row with a visible patch is drawn |
| LandscapeFilter.Filter.constructor | src/scene/object/Landscape.cpp:459-464 | a filter holds W*H default patches |
| LandscapeFilter.Filter.Update | src/scene/object/Landscape.cpp:472-509 | after update, the patch at index i is the grid patch of column i % W and row i / W |
| LandscapeFilter.Filter.UpdateRow | src/scene/object/Landscape.cpp:503-507 | one row of update sets exactly that row's patches and leaves the others |
| LandscapeFilter.Filter.Draw | src/scene/object/Landscape.cpp:512-556 | draw produces exactly the non-null unions of the rows, in row order |
| LandscapeFilter.Filter.MergeRow | src/scene/object/Landscape.cpp:518-550 | the inner loop of draw yields the union of the visible patches' rectangles of the row |
| Laser.Shoot | src/scene/object/weapon/Laser.cpp:118-138 | a shot heats the laser to 3, shows the trail at full alpha, spends one round from the clip and one from the ammunition, and ends the trail where the world's line query stopped |
| Laser.Cool | src/scene/object/weapon/Laser.cpp:142-155 | heat and trail alpha drop by the elapsed time and stop at 0; a laser that cools completely gets a full clip; ammunition, drawn and trigger are untouched |
| Laser.Update | src/scene/object/weapon/Laser.cpp:110-156 | one update: a shot when drawn, triggered, cold and loaded, then cooling by the elapsed time |
| Laser.UpdateSpendsAtMostOneShot | src/scene/object/weapon/Laser.cpp:110-156 | one update spends one round exactly when drawn, triggered, cold and loaded, and none otherwise; heat and alpha never go negative |
| Laser.NoShotWhileHot | src/scene/object/weapon/Laser.cpp:118-145 | with a frame shorter than 3 seconds, a shot is never followed by another in the next update |
| Laser.AmmoCanGoNegative | src/scene/object/weapon/Laser.cpp:118-137 | the firing guard does not look at the total ammunition, so a laser with none left fires and reaches -1 |
| Laser.Laser.constructor | src/scene/object/weapon/Laser.cpp:36-66 | a laser starts with 20 rounds, one in its clip of size 1, holstered, trigger released, cold and with no trail |
| Laser.Laser.TriggerPressed | src/scene/object/weapon/Laser.cpp:80-83 | the trigger is held |
| Laser.Laser.TriggerReleased | src/scene/object/weapon/Laser.cpp:86-89 | the trigger is released |
| Laser.Laser.Pull | src/scene/object/weapon/Laser.cpp:92-95 | the laser is drawn |
| Laser.Laser.Holster | src/scene/object/weapon/Laser.cpp:98-101 | the laser is holstered |
| Laser.Laser.UpdateSelf | src/scene/object/weapon/Laser.cpp:110-156 | reports a shot exactly when the firing condition held; the new state is the shot (if any) followed by cooling; a shot's trail has the length the world's line query left and ends there, otherwise the trail is kept |
| Material.Located | src/resource/Material.cpp:372-401 | the pairs setShader collects: only entries whose uniform the shader knows (location >= 0), paired with that location, at most one per entry |
| Material.LocatedKeepsKnown | src/resource/Material.cpp:377-383 | every texture or constant whose uniform exists in the shader is kept, with its location and value |
| Material.LocatedComesFromEntries | src/resource/Material.cpp:377-383 | every kept pair comes from a material entry, carrying that entry's location and value |
| Material.Install | src/resource/Material.cpp:362-406 | setShader(quality, name) leaves a shader exactly when the vertex shader file is readable; otherwise only the shader is cleared; a shader takes its blobMap and cubeMap uniform locations |
| Material.InstalledUniformsExist | src/resource/Material.cpp:379-405 | an installed shader's texture units and constants all refer to uniforms that exist, and there are no more of them than entries |
| Material.BindingQuality | src/resource/Material.cpp:277-289 | the bound quality never exceeds the default or the engine maximum, has a shader unless it is LOW, and every better level within both caps has no shader |
| Material.TextureCalls | src/resource/Material.cpp:324-330 | texture unit i is bound to the i-th collected texture and given to its sampler uniform |
| Material.ConstantCalls | src/resource/Material.cpp:316-322 | the i-th collected constant is set on its uniform, one call per constant |
| Material.BindCallsAsWritten | src/resource/Material.cpp:316-347 | as written: the constants, then the texture units, then the blob map on unit n whenever the shader samples it (set or not), then the cube map on the next unit but through the blob map's uniform |
| Material.MapCalls | src/resource/Material.cpp:332-346 | corrected: at most two map bindings, numbered on from unit n without a gap, and never the never-set texture |
| Material.BindCalls | src/resource/Material.cpp:292-347 | corrected: the constant calls, then the texture unit calls, then the map calls from the first free unit |
| Material.BindCallsNumbering | src/resource/Material.cpp:316-347 | corrected: after the constants, texture units are numbered 0,1,2,… with no gap; a never-set map is never bound; the blob map takes unit n on its own uniform exactly when set and sampled, the cube map the next unit on its own uniform |
| Material.CubeMapBoundThroughBlobUniform | src/resource/Material.cpp:332-346 | for a fresh material (no blob map) and a shader with both samplers, the code as written binds the never-set texture and then gives the cube map's unit to the blob sampler; the intended binding gives unit 0 to the cube sampler |
| Material.ClampAnisotropy | src/resource/Material.cpp:217-239 | the stored anisotropy is the maximum when above it, 1 when below 1, otherwise unchanged, so it lies in [1, maximum] |
| Material.ClampAnisotropyIdempotent | src/resource/Material.cpp:219-222 | clamping an already clamped anisotropy changes nothing |
| Material.Material.Slots | src/resource/Material.hpp:148-158 | a material has exactly three shader slots, LOW, MEDIUM and HIGH |
| Material.Material.constructor | src/resource/Material.cpp:243-266 | a material starts at default quality HIGH with both maps GLuint(-1), and every slot is the empty slot after its variant's shader has been installed |
| Material.Material.CollectLocated | src/resource/Material.cpp:372-401 | the collection loop builds exactly the located pairs, in key order |
| Material.Material.SetShader | src/resource/Material.cpp:362-406 | the named slot becomes the installed shader and the other two slots are unchanged |
| Material.Material.SetShaderVariant | src/resource/Material.cpp:409-425 | each of LOW, MEDIUM and HIGH gets the shader named after its base name plus ".blobbing" or ".default" |
| Material.Material.SetBlobMap | src/resource/Material.hpp:135 | stores the blob map texture |
| Material.Material.SetCubeMap | src/resource/Material.hpp:136 | stores the cube map texture |
| Material.Material.SetDefaultQuality | src/resource/Material.hpp:141 | stores the default quality |
| Material.Material.Bind | src/resource/Material.cpp:292-347 | bind records the binding quality; with no shader in that slot it emits nothing, otherwise exactly the as-written calls: constants, texture units, then the blob and cube maps as Material.cpp numbers and routes them |
| Material.Material.Release | src/resource/Material.cpp:350-359 | release acts exactly when the bound slot has a shader |
| Math3D.Floor | src/scene/object/Sky.cpp:337 | floorf: the greatest integer not above x |
| Math3D.Ceil | src/scene/object/Sky.cpp:337 | the least integer not below x, the rounding that truncation applies to negative values |
| Math3D.Trunc | src/scene/object/creature/Player.cpp:375 | the implicit float-to-int conversion truncates toward zero: floor for non-negative values, ceiling for negative ones |
| Math3D.Length | src/utility/Sphere.cpp:48 | QVector3D::length is non-negative and squares to the squared length |
| Math3D.Normalized | src/utility/Sphere.cpp:48 | QVector3D::normalized gives the zero vector for a zero vector, else a unit vector that scaled by the length gives the vector back |
| Math3D.PlaneNormalOrthogonal | src/utility/Triangle.hpp:44 | QVector3D::normal(a, b, c) is orthogonal to both edges and unit unless the points are collinear |
| Sequences.RemoveFirst | src/scene/object/AObject.cpp:183-187 | QList::removeOne: the list is unchanged when x is absent; otherwise exactly one x fewer as a multiset, and nothing new appears |
| Sequences.RemoveFirstKeepsOrder | src/scene/object/AObject.cpp:186 | removeOne takes out the first occurrence and keeps the order of the rest |
| Sequences.RemoveFirstFromDistinct | src/scene/object/AObject.cpp:186 | in a list without repeats, removing x once removes it entirely and leaves no repeats |
| Particles.CountDead | src/geometry/ParticleSystem.cpp:146-149 | the number of free slots is at most the pool size |
| Particles.CountLive | src/geometry/ParticleSystem.cpp:82-124 | live and free slots together make up the pool |
| Particles.CountLiveGrows | src/geometry/ParticleSystem.cpp:83-123 | a live particle has more live particles up to and including it than before it, so quads never overlap |
| Particles.CountDeadMonotone | src/geometry/ParticleSystem.cpp:146-157 | free slots only accumulate along the pool |
| Particles.Moved | src/geometry/ParticleSystem.cpp:56-59 | one frame moves a live particle by its velocity, ages it by delta and keeps its rotation |
| Particles.Updated | src/geometry/ParticleSystem.cpp:48-63 | update keeps the pool size, leaves free slots alone and, without a callback, moves every live particle |
| Particles.UpdateFreesExpired | src/geometry/ParticleSystem.cpp:54-59 | without a callback, a live particle becomes a free slot exactly when its life is at most delta |
| Particles.Emitted | src/geometry/ParticleSystem.cpp:144-158 | emission keeps the pool size |
| Particles.EmittedKeepsLive | src/geometry/ParticleSystem.cpp:146-156 | emission never touches a live particle, and a slot it changes was free and now sits at the source |
| Particles.EmittedCount | src/geometry/ParticleSystem.cpp:144-158 | with positive drawn lives, emission revives exactly the smaller of toEmit and the number of free slots |
| Particles.TexCorner | src/geometry/ParticleSystem.cpp:105-119 | every texture corner has u equal to 0 or 1 |
| Particles.QuadUsesEveryCorner | src/geometry/ParticleSystem.cpp:102-121 | a particle's four vertices take four different texture corners, whatever its rotation |
| Particles.BillboardOf | src/geometry/ParticleSystem.cpp:68-80 | a billboard has four corner offsets and four normals |
| Particles.QuadsWrittenStep | src/geometry/ParticleSystem.cpp:88-123 | writing the next live particle's quad right after the earlier ones keeps those quads intact |
| Particles.ParticleSystem.constructor | src/geometry/ParticleSystem.cpp:32-45 | a new pool of the given capacity has only free slots, lives between 1 and 2, drag 1, size 1 and gravity -9.81, and four vertex slots per particle |
| Particles.ParticleSystem.NoneLive | src/geometry/ParticleSystem.cpp:41-44 | a pool whose every slot has life 0 has no live particle |
| Particles.ParticleSystem.Update | src/geometry/ParticleSystem.cpp:48-63 | the pool becomes its updated pool |
| Particles.ParticleSystem.EmitSpherical | src/geometry/ParticleSystem.cpp:144-158 | the pool becomes its emitted pool: free slots are revived in index order until toEmit have been |
| Particles.ParticleSystem.EmittedStep | src/geometry/ParticleSystem.cpp:146-157 | emission over one more slot revives it exactly when it is free and fewer than toEmit were revived before it |
| Particles.ParticleSystem.EmittedRest | src/geometry/ParticleSystem.cpp:146 | once toEmit slots have been revived, the rest of the pool is left alone, so the loop may stop there |
| Particles.ParticleSystem.Draw | src/geometry/ParticleSystem.cpp:66-124 | draw fills four vertices per live particle, packs each live particle's quad in pool order at the front of the buffer, and leaves the rest of the buffer alone |
| Particles.ParticleSystem.WriteQuad | src/geometry/ParticleSystem.cpp:88-122 | one particle's quad is written at the given place and nothing else changes |
| Player.SetFlag | src/scene/object/creature/Player.cpp:95-168 | a movement or action key sets its own flag and leaves every other flag alone |
| Player.PressThenRelease | src/scene/object/creature/Player.cpp:95-168 | pressing and then releasing a key leaves that key's flag clear and every other flag as it was |
| Player.AfterDamage | src/scene/object/creature/Player.cpp:337-360 | in god mode damage does nothing; otherwise armor absorbs what it can, the rest comes off life, and life at or below 0 becomes 0 with an alive player starting to die |
| Player.DamageIsAbsorbed | src/scene/object/creature/Player.cpp:337-360 | outside god mode, armor and life stay non-negative, damage the player survives is paid in full from armor and life together, and a fatal hit on an alive player makes it dying |
| Player.Multiplier | src/scene/object/creature/Player.cpp:363-374 | the kill-streak multiplier lies in [1, 5], is 5 exactly for a kill within a second and 1 exactly after ten seconds or more |
| Player.MultiplierMonotone | src/scene/object/creature/Player.cpp:366-374 | a quicker kill is worth at least as much |
| Player.AddPoints | src/scene/object/creature/Player.cpp:375 | with non-negative points, the total gains at least the points and at most five times them |
| Player.ClampPitch | src/scene/object/creature/Player.cpp:433-436 | the pitch stays within 80 degrees either way and is unchanged inside that range |
| Player.WaterImmersion | src/scene/object/creature/Player.cpp:578-582 | immersion lies in [0, 1]: 0 with the feet above the water, 1 with the head at or below it |
| Player.Animated | src/scene/object/creature/Player.cpp:246-255 | while time is left on a non-empty message, it zooms in, fades out and its time runs down; otherwise its fade is 0; the message itself never changes |
| Player.LifeStep | src/scene/object/creature/Player.cpp:257-287 | god mode revives the player with 100 life; then SPAWNING becomes ALIVE and DYING becomes DEAD with the game-over message shown exactly then |
| Player.DeadStaysDead | src/scene/object/creature/Player.cpp:257-287 | a dead player stays dead exactly when god mode is off |
| Player.SprintStep | src/scene/object/creature/Player.cpp:471-483 | the sprint counter grows by delta only while Shift is held and there is no cooldown; once it reaches 3 seconds Shift is released, the counter resets and a 2-second cooldown starts; a running cooldown counts down; the counter stays below 3 and Shift is never pressed by the step |
| Player.SprintStepKeepsValid | src/scene/object/creature/Player.cpp:471-483 | the sprint step keeps the counter in [0, 3), the cooldown at most 2, and the counter at 0 while cooling down |
| Player.CoolDownBlocksSprint | src/scene/object/creature/Player.cpp:471-483 | during a cooldown the player does not sprint and only the cooldown changes |
| Player.ShiftReleasedAfterThreeSeconds | src/scene/object/creature/Player.cpp:476-481 | a sprint held past 3 seconds releases Shift and starts the cooldown |
| Player.TorchStep | src/scene/object/creature/Player.cpp:605-629 | the hint "Press [E] to take torch." is shown exactly when the placed torch is in reach; with E held and more than half a second since the last toggle, a placed torch in reach is taken and a carried torch is placed, and the torch timer restarts; otherwise nothing changes |
| Player.TorchStaysForHalfSecond | src/scene/object/creature/Player.cpp:605-629 | after a toggle the torch cannot be toggled again within half a second, whatever keys are held |
| Player.Player.constructor | src/scene/object/creature/Player.cpp:35-85 | a player starts spawning with 100 life, 25 armor, god mode on, no key held, no points, zero timers and no message |
| Player.Player.KeyPress | src/scene/object/creature/Player.cpp:95-130 | a movement or action key sets its flag, R asks for a reload, and only these keys are accepted |
| Player.Player.KeyRelease | src/scene/object/creature/Player.cpp:133-168 | a movement or action key clears its flag, Tab toggles god mode, and only these keys are accepted |
| Player.Player.MouseMove | src/scene/object/creature/Player.cpp:171-174 | mouse movement accumulates |
| Player.Player.SetLife | src/scene/object/creature/ACreature.hpp:59 | stores the life |
| Player.Player.SetArmor | src/scene/object/creature/Player.hpp:71 | stores the armor |
| Player.Player.DrawMessage | src/scene/object/creature/Player.cpp:383-389 | the message is shown for four seconds, fully opaque and not yet zoomed |
| Player.Player.ReceiveDamage | src/scene/object/creature/Player.cpp:337-360 | life, armor and state become what damage does to them |
| Player.Player.ReceivePoints | src/scene/object/creature/Player.cpp:363-380 | the points gained are the kill's points times the multiplier for the time since the last kill; they are shown, and the kill timer restarts |
| Player.Player.UpdateRotation | src/scene/object/creature/Player.cpp:419-441 | yaw follows the horizontal mouse movement, pitch the vertical one within 80 degrees, and the accumulated movement is consumed |
| Player.Player.UpdateSprint | src/scene/object/creature/Player.cpp:471-483 | Shift, the sprint counter and the cooldown become the sprint step of their old values, and the sprint stays consistent |
| Player.Player.UpdateTorch | src/scene/object/creature/Player.cpp:605-629 | whether the torch is placed, the torch timer and the hint become the torch step of the old torch with the E key |
| Player.Player.UpdateAlive | src/scene/object/creature/Player.cpp:268-272 | an alive player turns with the mouse, takes the sprint step unless in god mode, and takes the torch step |
| Player.Player.Revive | src/scene/object/creature/Player.cpp:257-261 | god mode makes the player alive with 100 life; otherwise state and life are unchanged |
| Player.Player.Advance | src/scene/object/creature/Player.cpp:263-286 | a spawning player becomes alive; a dying one becomes dead and shows "GAME OVER!"; a dead one stays dead |
| Player.Player.Tick | src/scene/object/creature/Player.cpp:241-255 | the alive, kill and torch timers advance by delta, the hint is cleared and the message animates |
| Player.Player.StateSwitch | src/scene/object/creature/Player.cpp:257-287 | the life step decides state, life and the message; only a player alive after it turns, sprints and takes the torch step |
| Player.Player.UpdateSelf | src/scene/object/creature/Player.cpp:237-287 | the alive, kill and torch timers advance by delta, the hint is cleared and the message animates; the life step decides state, life and the game-over message; a player alive at the switch turns with the mouse, takes the sprint step (unless in god mode: the sprint is then untouched) and the torch step, with the hint shown exactly when the placed torch is in reach; a player not alive keeps keys, sprint and torch; the sprint stays consistent; armor, points and god mode are unchanged |
| PowerUp.PowerTypeOf | src/scene/object/environment/PowerUp.cpp:41-55 | "health", "armor" and "weapon_laser" are the only type names recognised, each to its own type |
| PowerUp.Boosted | src/scene/object/environment/PowerUp.cpp:108-111 | a pickup adds its bonus and caps the result at 100 |
| PowerUp.HealthPickupHeals | src/scene/object/environment/PowerUp.cpp:107-109 | a health pickup never lowers life at or below 100 and never exceeds 100; two pickups act as one of twice the bonus |
| PowerUp.WithinReach | src/scene/object/environment/PowerUp.cpp:90-103 | the reach test "distance at most 2" holds exactly when the squared distance is at most 4 |
| PowerUp.CooledDown | src/scene/object/environment/PowerUp.cpp:92-100 | the cool-down counts down by the elapsed time; once below 0 the power-up is back with cool-down 0, otherwise it stays away with the reduced cool-down |
| PowerUp.PowerUp.Respawn | src/scene/object/environment/PowerUp.cpp:66-80 | the power-up moves to the drawn point within its radius, 1.5 above the terrain, and is away for the drawn cool-down in [1, 3] |
| PowerUp.PowerUp.constructor | src/scene/object/environment/PowerUp.cpp:31-57 | a power-up of a recognised type keeps its map position and radius, starts unrotated and away, as respawn leaves it |
| PowerUp.PowerUp.UpdateSelf | src/scene/object/environment/PowerUp.cpp:83-120 | the power-up turns by 100 degrees a second; it is picked up exactly when it is back and the player is within distance 2; a pickup adds 25 life or 40 armor, capped at 100, and respawns it; while away, the cool-down runs |
| Quality.Rank | src/resource/Material.hpp:44-49 | the enum values: LOW is 0, MEDIUM 1, HIGH 2 |
| Quality.ToUpper | src/resource/Material.cpp:45 | the ASCII-only upper-casing of the model (Qt's Unicode mapping is left out) keeps the length and upper-cases each ASCII letter on its own, leaving every other character as it is |
| Quality.FromString | src/resource/Material.cpp:43-54 | a name parses to HIGH or MEDIUM exactly when its upper-cased form is "HIGH" or "MEDIUM"; every other name, valid or not, gives LOW |
| Quality.ToString | src/resource/Material.cpp:57-69 | every quality has a printable name |
| Quality.RoundTrip | src/scene/object/World.cpp:40-66 | parsing the printed name of a quality gives that quality back (material and splatter qualities alike) |
| Quality.ToUpperIdempotent | src/resource/Material.cpp:45 | upper-casing twice is upper-casing once |
| Quality.FromStringIgnoresCase | src/scene/object/World.cpp:40-51 | names that differ only in letter case parse to the same quality |
| Resource.ResourceData.constructor | src/resource/AResource.hpp:42 | new data carries its uid and is not loaded |
| Resource.ResourceData.Load | src/resource/AResource.hpp:53 | load marks the data loaded and reports success |
| Resource.ResourceData.Unload | src/resource/AResource.hpp:55 | unload marks the data not loaded |
| Resource.ResourceCache.constructor | src/resource/AResource.hpp:119-121 | a type's cache starts empty |
| Resource.ResourceCache.Expire | src/resource/AResource.hpp:114 | when the last owner lets go, the weak reference goes null and every entry stays under its own uid |
| Resource.Resource.constructor | src/resource/AResource.hpp:79 | a new resource holds no data |
| Resource.Resource.Cache | src/resource/AResource.hpp:101-111 | a live cached entry of the same uid is adopted without loading and the cache is unchanged; otherwise the given data is stored under its uid, adopted and loaded; either way the resource holds data equal to the given one, found in the cache under its uid |
| Resource.SharedData | src/resource/AResource.hpp:92-111 | two resources cached under one uid share one loaded data object, and the second's own data is never loaded |
| RiffWave.Read | src/resource/audioLoader/riffWave.c:73-127 | fread of one item of n bytes succeeds iff n > 0 and all n bytes remain, and yields exactly those bytes |
| RiffWave.Int32 | src/resource/audioLoader/riffWave.c:136 | the 32-bit sample rate stored into an ALsizei keeps its value modulo 2^32, in the signed 32-bit range |
| RiffWave.FormatOf | src/resource/audioLoader/riffWave.c:138-155 | (1, 8) gives MONO8, (1, 16) MONO16, (2, 8) STEREO8, (2, 16) STEREO16, anything else 0 |
| RiffWave.ExtraSize | src/resource/audioLoader/riffWave.c:104 | the skipped byte count is subChunkSize - 16 in 32-bit unsigned arithmetic: exact from 16 up, wrapped to nearly 4 GiB below 16 |
| RiffWave.DataAt | src/resource/audioLoader/riffWave.c:103-106 | the data chunk header is read right after the 24-byte fmt header and its extra bytes |
| RiffWave.LoadedCases | src/resource/audioLoader/riffWave.c:64-166 | an unopenable file gives -FILENOTFOUND; a short RIFF header -INVALIDFORMAT; a wrong "RIFF" tag -INVALIDCONTAINER; a wrong "WAVE" tag -INVALIDCODEC; a short or mistagged fmt or data header, or a short or empty data chunk, -INVALIDFORMAT; otherwise frequency = sample rate and format = the table's entry, and it returns 0 with the whole data chunk iff the table knows the format |
| RiffWave.LoadRiffWave | src/resource/audioLoader/riffWave.c:64-122 | reading the headers through a cursor gives exactly the outcome above |
| RiffWave.ReadDataChunk | src/resource/audioLoader/riffWave.c:109-165 | the data header, the samples and the format table, read from the cursor, give exactly the outcome above |
| RiffWave.ShortFmtChunkRejected | src/resource/audioLoader/riffWave.c:104-106 | a fmt chunk claiming fewer than 16 bytes makes the loader skip about 4 GiB, so every shorter file is rejected |
| RiffWave.OnlyDataFollowsFmt | src/resource/audioLoader/riffWave.c:117-121 | there is no chunk skipping: a chunk after fmt that is not "data" (a LIST chunk, say) is rejected |
| RiffWave.EncodeWave | src/resource/audioLoader/riffWave.c:33-61 | the canonical PCM wave file built from the three header structs is 44 bytes plus the samples |
| RiffWave.EncodeWaveLayout | src/resource/audioLoader/riffWave.c:33-61 | each header field of the canonical file lies at its struct offset |
| RiffWave.EncodeWaveRoundTrip | src/resource/audioLoader/riffWave.c:72-132 | the canonical file passes every header check, and its channels, bits, sample rate and samples read back as encoded |
| RiffWave.LoadEncodedWave | src/resource/audioLoader/riffWave.c:64-166 | loading the canonical file returns 0 with the encoded sample rate, the table's format for its channels and width, and the encoded samples |
| RiffWave.U32OfLE32 | src/resource/audioLoader/riffWave.c:37 | a uint32_t field read little-endian from the bytes that encode v gives v back |
| RiffWave.U16OfLE16 | src/resource/audioLoader/riffWave.c:33-61 | a 16-bit field read little-endian from the bytes that encode v gives v back |
| Scene.FrameDelta | src/scene/Scene.cpp:341-345 | the frame time is the elapsed nanoseconds over 10^9, always positive, with an elapsed time of 0 counted as 1 ns |
| Scene.Half | src/scene/Scene.cpp:803 | the stereo width halves the screen width as C++ integer division does, truncating toward zero |
| Scene.StereoSize | src/scene/Scene.cpp:794-810 | each stereo render target is half the screen wide (rounded down) and the full height, but at least 1 by 1 |
| Scene.DrawEvents | src/scene/Scene.cpp:265-270 | drawObjects: the eye loads its matrices for a view offset and aspect, then the root's draw and draw2 passes |
| Scene.FrameDraws | src/scene/Scene.cpp:370-431 | the draws of a frame: one at the screen's aspect with no offset, or in stereo the left eye half the eye distance left, the right eye as far right, at the targets' aspect, then the composition |
| Scene.FrameOrder | src/scene/Scene.cpp:337-434 | within a frame every update pass precedes every draw, nothing is updated while paused, and a stereo frame draws the scene twice and then composes the two targets |
| Scene.Scene.constructor | src/scene/Scene.cpp:76-170 | a new scene is not paused, has counted no frame, has eye distance 0.1, takes the stereo setting with targets sized for a 400×600 screen, hides the menu, grabs the mouse, and its eye has the configured far plane |
| Scene.Scene.UpdateObjects | src/scene/Scene.cpp:256-262 | the root's update passes happen, then the eye follows its object over this frame's time and the listener moves |
| Scene.Scene.DrawBackground | src/scene/Scene.cpp:337-434 | the frame time is measured, the updates happen unless paused, the eye gets a 90 degree field of view; one draw at the screen's aspect, or in stereo one per eye shifted by half the eye distance, then the composition; the frame is counted |
| Scene.Scene.SecondPassed | src/scene/Scene.cpp:630-634 | the frames counted in the last second are published and the count restarts |
| Scene.Scene.HalfSecondPassed | src/scene/Scene.cpp:637-640 | the HUD's blinking state flips |
| Scene.Scene.ToggleMenu | src/scene/Scene.cpp:643-648 | the mouse grab flips, and the menu shows and the game pauses exactly when the mouse is free |
| Scene.Scene.ResizeStereoFrameBuffers | src/scene/Scene.cpp:794-810 | the old targets go; in stereo two new ones of the stereo size replace them, otherwise there are none |
| Scene.Scene.SetStereo | src/scene/Scene.hpp:98 | the stereo flag is stored and the targets are rebuilt for the current screen size |
| SceneGraph.CreateKeepsValid | src/scene/object/AObject.cpp:32-42 | a new node under a fresh id keeps the arena sound |
| SceneGraph.MutateKeepsValid | src/scene/object/AObject.hpp:117-133 | a mutator keeps the arena sound |
| SceneGraph.RelinkedKeepsValid | src/scene/object/AObject.cpp:174-187 | relinking to ids of the arena keeps it sound |
| SceneGraph.RemoveKeepsValid | src/scene/object/AObject.cpp:183-187 | remove keeps the arena sound |
| SceneGraph.AttachKeepsValid | src/scene/object/AObject.cpp:178-179 | linking a child under a parent keeps the arena sound |
| SceneGraph.SameShapeKeepsValid | src/scene/object/AObject.hpp:231 | refreshing matrix caches keeps the arena sound |
| SceneGraph.Visit | src/scene/object/AObject.cpp:207-222 | the order in which intersectLine probes: the children's subtrees in list order, the excluded one skipped, then the node itself when it is a landscape or a dummy |
| SceneGraph.VisitShapeOnly | src/scene/object/AObject.cpp:207-222 | the probing order depends on links and kinds only, not on matrix caches |
| SceneGraph.ChainedJoin | src/scene/object/AObject.cpp:210-221 | a walk followed by one on what it left is one walk on the same ray, and the later walk's cut, if any, wins: the last non-empty child result is the result |
| SceneGraph.LastCutJoin | src/scene/object/AObject.cpp:214-219 | the object named after two walks is the later walk's if it named one, else the earlier's |
| SceneGraph.AnswerNoLonger | src/scene/object/creature/Dummy.cpp:140-151 | a probe cuts strictly nearer or hands back the ray untouched |
| SceneGraph.ChainMonotone | src/scene/object/AObject.cpp:210-221 | each probe is handed no more than the start and no more than any earlier answer |
| SceneGraph.WalkShortens | src/scene/object/AObject.cpp:207-222 | the result is no longer than any probe's answer, each answer no longer than its input, each input no longer than the start |
| SceneGraph.LastCutNearest | src/scene/object/AObject.cpp:207-222 | the named object made the last cut; the result is exactly that probe's answer, no later probe cut, and every other cut was strictly further away: the result is the nearest cut |
| SceneGraph.NoProbedDummyNearer | src/scene/object/creature/Dummy.cpp:136-153 | the ray meets no probed dummy's sphere (seen from outside) before the returned length |
| SceneGraph.WalkJoin | src/scene/object/AObject.cpp:210-221 | walks joined in arenas of the same shape stay one walk, probing the nodes of both in order |
| SceneGraph.Graph.constructor | src/scene/object/AObject.cpp:32-42 | an empty scene graph |
| SceneGraph.Graph.Create | src/scene/object/AObject.cpp:32-42 | the AObject constructor adds exactly one new node under a fresh id |
| SceneGraph.Graph.CreateTeapot | src/scene/object/Teapot.cpp:34-36 | the Teapot constructor passes AObject no radius, so its new node has the default bounding radius 0 (AObject.hpp:72), at most FLT_EPSILON |
| SceneGraph.Graph.Mutate | src/scene/object/AObject.hpp:117-133 | a mutator changes exactly the mutated node, as Mutated says |
| SceneGraph.Graph.Remove | src/scene/object/AObject.cpp:183-187 | remove updates the arena exactly as Removed says |
| SceneGraph.Graph.Add | src/scene/object/AObject.cpp:174-180 | add updates the arena exactly as Added says |
| SceneGraph.Graph.Attach | src/scene/object/AObject.cpp:178-179 | the second half of add updates the arena exactly as Attached says |
| SceneGraph.Graph.ModelMatrix | src/scene/object/AObject.hpp:99 | modelMatrix() returns and leaves what ModelMatrixOf specifies |
| SceneGraph.Graph.SyncMatrix | src/scene/object/AObject.cpp:78-88 | syncMatrix leaves the arena Synced specifies |
| SceneGraph.Graph.ValidateMatrix | src/scene/object/AObject.hpp:231 | validateMatrix leaves the arena Validate specifies |
| SceneGraph.Graph.GetWorldPosition | src/scene/object/AObject.hpp:101 | worldPosition() returns the origin of the validated model matrix |
| SceneGraph.Graph.Traverse | src/scene/object/AObject.cpp:91-171 | update, update2, draw and draw2 emit exactly the events Trace specifies and change only matrix caches |
| SceneGraph.Graph.TraverseChildren | src/scene/object/AObject.cpp:95-167 | the children loop emits exactly the children's traces |
| SceneGraph.Graph.IntersectLine | src/scene/object/AObject.cpp:205-220 | the ghost probe list holds, in Visit order, one own test per landscape or dummy below the node (excluded subtrees skipped), each handed the length and normal the tests before it left and answering as its class does; the result is the last cut among them with the length left, and nothing else changes but matrix caches |
| SceneGraph.Graph.IntersectChildren | src/scene/object/AObject.cpp:209-219 | the children loop, the excluded child skipped: the probes are the children's walks one after the other on one shrinking ray, and the result is the last of them that named an object, with the length left |
| SceneGraph.Graph.IntersectOwn | src/scene/object/creature/Dummy.cpp:136-153 | a landscape or a dummy makes exactly one probe, answering as its class does (terrain cut with the ground normal, or the sphere test around the world position), any other node none |
| SceneGraph.Graph.CollideSphere | src/scene/object/AObject.cpp:225-236 | collideSphere changes nothing in the graph and returns what CollideNode specifies |
| SceneNode.SameShapeSound | src/scene/object/AObject.hpp:231 | refreshing matrix caches keeps the arena closed and every node's override data well formed |
| SceneNode.NewNode | src/scene/object/AObject.cpp:32-42 | a new object has no parent and no children, sits at the origin with the identity rotation and the given radius, and its matrix needs an update |
| SceneNode.Mutated | src/scene/object/AObject.hpp:117-133 | move, moveX/Y/Z shift the position by exactly their offset, setPosition and setPositionX/Y/Z replace exactly the named coordinates, setRotation replaces the rotation; every mutator marks the matrix dirty and changes nothing else |
| SceneNode.MovesAdd | src/scene/object/AObject.hpp:117 | moving by a and then by b is moving by a + b |
| SceneNode.Left | src/scene/object/AObject.hpp:110 | left(): the local X axis rotated by the local rotation (up and direction likewise) |
| SceneNode.AxesIgnoreCache | src/scene/object/AObject.hpp:110-114 | left, up and direction depend on the rotation only |
| SceneNode.RootProductFromIdentity | src/scene/object/AObject.cpp:84-87 | setToIdentity, translate, rotate on a root yields T(position) R(rotation) |
| SceneNode.SyncedOrigin | src/scene/object/AObject.cpp:78-88 | a synced matrix places the node's origin at its position mapped by the parent's model matrix |
| SceneNode.RootOrigin | src/scene/object/AObject.cpp:84-87 | a root's synced matrix places its origin at its position |
| SceneNode.RootAxes | src/scene/object/AObject.hpp:103-114 | a root's world axes (the first three matrix columns) are its local axes left, up and direction |
| SceneNode.ModelMatrixOf | src/scene/object/AObject.hpp:99 | modelMatrix() returns the cache after validation: with depth left the node is clean, no node is made dirty, and only dirty caches are rewritten |
| SceneNode.ModelMatrixOfValidated | src/scene/object/AObject.hpp:99 | modelMatrix() is validateMatrix() followed by reading the cache |
| SceneNode.Synced | src/scene/object/AObject.cpp:78-88 | syncMatrix stores the parent's modelMatrix() times T(position) R(rotation), or T(position) R(rotation) for a root, whatever the dirty flag, which it does not touch |
| SceneNode.SyncedRoot | src/scene/object/AObject.cpp:80-87 | syncMatrix on a root rewrites only its own cache |
| SceneNode.SyncedChild | src/scene/object/AObject.cpp:80-87 | syncMatrix on a child rewrites its own cache in the arena the parent's modelMatrix() leaves |
| SceneNode.Validate | src/scene/object/AObject.hpp:231 | validateMatrix leaves the node clean, syncs only a dirty node and touches no clean node |
| SceneNode.ValidateSyncs | src/scene/object/AObject.hpp:231 | a dirty node's validated cache is exactly the syncMatrix product |
| SceneNode.ValidateIdempotent | src/scene/object/AObject.hpp:231 | validating twice is validating once |
| SceneNode.ModelOfDirty | src/scene/object/AObject.hpp:99 | the model matrix of a dirty node is the syncMatrix product |
| SceneNode.WorldPosition | src/scene/object/AObject.hpp:101 | worldPosition(): the translation column of the validated model matrix |
| SceneNode.RootModel | src/scene/object/AObject.hpp:99 | a dirty root's model matrix is T(position) R(rotation) |
| SceneNode.RootWorldPosition | src/scene/object/AObject.hpp:101 | a dirty root's world position is its position |
| SceneNode.ChildWorldPosition | src/scene/object/AObject.hpp:101 | a dirty child's world position is its position mapped by its parent's model matrix |
| SceneNode.ParentMutationLeavesChildStale | src/scene/object/AObject.hpp:117-133 | mutating a parent does not dirty its children: a clean child keeps returning its old cached matrix |
| SceneNode.RelinkedInTwoSteps | src/scene/object/AObject.cpp:174-187 | the parent-link write and the child-list write commute |
| SceneNode.Relinked | src/scene/object/AObject.cpp:174-187 | the arena with one parent link and one child list rewritten, every other field and node unchanged |
| SceneNode.Removed | src/scene/object/AObject.cpp:183-187 | remove(c) clears c's parent even if the caller does not hold c, drops the first c from the caller's list, and changes nothing else |
| SceneNode.Added | src/scene/object/AObject.cpp:174-180 | add(c) takes c out of its old parent's list, appends it to the caller's list and makes the caller its parent; other nodes and all other fields are unchanged and the arena stays closed |
| SceneNode.Detached | src/scene/object/AObject.cpp:176-177 | the first half of add: c leaves its old parent's list and loses its parent link |
| SceneNode.Attached | src/scene/object/AObject.cpp:178-179 | the second half of add: c goes to the end of the list and gets the caller as parent |
| SceneNode.ReAddMovesToEnd | src/scene/object/AObject.cpp:174-180 | adding a child to the parent already holding it moves it to the end of the list |
| SceneNode.AddCanCloseACycle | src/scene/object/AObject.cpp:174-180 | nothing checks for cycles: adding a root to its own child makes each the other's parent |
| SceneNode.TraceUnfold | src/scene/object/AObject.cpp:91-171 | a pass on a node is syncMatrix (update only), the self hook, the children's passes in list order, then the self-post hook |
| SceneNode.ChildTracesStep | src/scene/object/AObject.cpp:95-102 | one more child adds its pass exactly when the parent descends into it |
| SceneNode.DescendsShapeOnly | src/scene/object/AObject.cpp:98-99 | whether a pass descends into a child depends only on the links, positions and radii |
| SceneNode.Trace | src/scene/object/AObject.cpp:91-171 | the events of a pass on a node: syncMatrix (update only), the self hook, the passes of the children it descends into in list order, the self-post hook |
| SceneNode.TraceShapeOnly | src/scene/object/AObject.cpp:91-171 | a pass visits the same nodes whatever the matrix caches hold |
| SceneNode.TraceBalanced | src/scene/object/AObject.cpp:91-171 | every self hook in a pass is matched by a self-post hook of the same node |
| SceneNode.ChildTracesBalanced | src/scene/object/AObject.cpp:95-103 | the children's passes are balanced in the same way |
| SceneNode.Draw2MirrorsDraw | src/scene/object/AObject.cpp:119-171 | draw2 reuses draw's culling decisions, so it visits the same nodes in the same order |
| SceneNode.Draw2ChildrenMirrorDraw | src/scene/object/AObject.cpp:128-167 | the children draw2 visits are those draw visits |
| SceneNode.Update2IsUnguardedUpdate | src/scene/object/AObject.cpp:91-116 | when the guard lets every child through, update2 reaches the nodes update reaches, in the same order, without the syncs |
| SceneNode.DescendedChildRuns | src/scene/object/AObject.cpp:95-102 | a child the pass goes into runs its own self hook within the parent's pass |
| SceneNode.ZeroRadiusAlwaysDrawn | src/scene/object/AObject.cpp:131-139 | a child with bounding radius 0, such as a teapot, is never culled: draw and draw2 go into it and run its self hook whatever the frustum accepts |
| SceneNode.UpdateSyncsFirst | src/scene/object/AObject.cpp:91-104 | in an update pass each node's matrix is synced right before its self hook |
| SceneNode.ChildrenSyncFirst | src/scene/object/AObject.cpp:95-102 | the same holds within the children's update passes |
| Sky.WrapTime | src/scene/object/Sky.cpp:317-324 | the stored time of day lies in [0, 1]: a time inside that range is kept, any other loses its whole days, and only 1 itself maps to 1 |
| Sky.WrapTimeIdempotent | src/scene/object/Sky.cpp:317-324 | setting an already stored time of day again changes nothing |
| Sky.Linear | src/utility/Interpolation.hpp:37-38 | linear interpolation gives the first end point at weight 0 and the second at weight 1 |
| Sky.LinearBetween | src/utility/Interpolation.hpp:37-38 | with a weight in [0, 1] the interpolation stays between its end points |
| Sky.Capped | src/scene/object/Sky.cpp:355-364 | a capped factor is the value, but never above the maximum |
| Sky.ColumnsInRange | src/scene/object/Sky.cpp:335-345 | for a time of day in [0, 1] both dome columns lie in the image row and the second is the column after the first, wrapping at the edge |
| Sky.SkyColor | src/scene/object/Sky.cpp:335-352 | each channel of the base colour lies between the same channel of the two dome columns around the time of day |
| Sky.LightFactors | src/scene/object/Sky.cpp:354-364 | corrected: each light factor is interpolated from its day to its night value by (sunY + 1)/2 and capped at its own maximum |
| Sky.LightFactorsAsWritten | src/scene/object/Sky.cpp:354-364 | as written: the diffuse factor is capped at its own maximum and then again at the specular maximum, the specular factor is the uncapped interpolation, the ambient factor is the corrected one |
| Sky.SpecularFactorUncapped | src/scene/object/Sky.cpp:358-360 | with specularFactorDay 3 (above its maximum 2) and the sun straight down, the code as written yields a specular factor of 3, while the intended factors cap it at 2 |
| Sky.DiffuseCappedTwice | src/scene/object/Sky.cpp:355-360 | as written, the diffuse factor is also held under the specular maximum, on top of its own cap |
| Sky.CloudVertex | src/scene/object/Sky.cpp:190-204 | a cloud vertex's texture coordinates lie in [-0.5, 0.5], from -0.5 at the first column to 0.5 at the last |
| Sky.StripZigZags | src/scene/object/Sky.cpp:214-221 | drawing one slice as a strip alternates between the vertex of the slice's row and the one below it, column by column |
| Sky.Sky.constructor | src/scene/object/Sky.cpp:128-233 | a new sky starts at time 0, with every cloud vertex at its grid place and strip indices that all name vertices of the grid |
| Sky.Sky.BuildCloudVertices | src/scene/object/Sky.cpp:188-206 | vertex x + z·res of the cloud plane is the cloud vertex of column x and row z |
| Sky.Sky.BuildCloudIndices | src/scene/object/Sky.cpp:214-222 | the index list holds, for each slice and column, the vertex of that row and then the one below it, all within the grid |
| Sky.Sky.FillStrip | src/scene/object/Sky.cpp:216-221 | filling one slice writes its pairs and leaves every other entry untouched |
| Sky.Sky.SetTimeOfDay | src/scene/object/Sky.cpp:317-324 | stores the wrapped time of day |
| Sky.Sky.UpdateSelf | src/scene/object/Sky.cpp:327-369 | stores the sun direction; the base colour lies between the dome columns around the time of day, and the diffuse, specular and ambient colours are the base colour (normalised for ambient) scaled by the factors as written |
| Sphere.IntersectSphere | src/utility/Sphere.cpp:30-51 | contact iff the squared centre distance is at most (rA + rB)^2 (touching counts); on a hit depth = sqrt((rA+rB)^2) - sqrt(|cB - cA|^2) and the normal is a unit vector only when the squared distance exceeds FLT_EPSILON; on a miss neither out-parameter changes |
| Sphere.ContactDepthIsOverlap | src/utility/Sphere.cpp:44-48 | for non-negative radii the depth is the overlap (rA + rB) - |cB - cA| >= 0, and the normal scaled by the distance is cB - cA |
| Sphere.ContactSymmetric | src/utility/Sphere.cpp:34-42 | swapping the two spheres keeps the verdict and the depth |
| Sphere.MeetsSurfaceIffRoot | src/utility/Sphere.cpp:60-65 | the coefficients a, b, c are right: the ray point at t lies on the surface iff a t^2 + b t + c = 0 |
| Sphere.NearestRoot | src/utility/Sphere.cpp:68-107 | the shared root selection: a negative discriminant or t1 < 0 is a miss that leaves the distance alone; a reported distance is never negative |
| Sphere.NoRootWhenDiscNegative | src/utility/Sphere.cpp:70-72 | a negative discriminant means the quadratic has no real root |
| Sphere.TwoRoots | src/utility/Sphere.cpp:74-83 | with q computed from the discriminant, the roots of the quadratic are exactly q/a and c/q |
| Sphere.NearestRootIsSmallestNonNegativeRoot | src/utility/Sphere.cpp:85-105 | a hit reports a root with no root in [0, distance), and a miss means there is no root t >= 0 |
| Sphere.IntersectCulledRayHull | src/utility/Sphere.cpp:56-108 | needs a non-zero direction; a miss leaves the distance alone, a hit reports a distance >= 0 |
| Sphere.IntersectCulledRay | src/utility/Sphere.cpp:111-169 | an origin strictly inside (c < 0) is a hit at distance 0 before any root is computed; otherwise a miss leaves the distance alone and a hit is >= 0 |
| Sphere.HullHitIsNearestSurfacePoint | src/utility/Sphere.cpp:56-108 | the hull test is exact: a hit is the nearest surface point at t >= 0, and a miss means the ray never meets the surface ahead of its origin |
| Sphere.CulledAgreesWithHullOutside | src/utility/Sphere.cpp:118-166 | with the origin outside or on the sphere the culled test gives the hull test's answer |
| Splatter.ChoiceUnique | src/effect/SplatterSystem.cpp:151-185 | the selection loops settle on one slot only: the first marked slot, or else the earliest best one |
| Splatter.Choose | src/effect/SplatterSystem.cpp:173-185 | the loop stops at the first marked slot if there is one, and otherwise ends on the earliest slot whose key none beats |
| Splatter.Fades | src/effect/SplatterSystem.cpp:181 | the fades of the decal slots, slot by slot |
| Splatter.FadedOut | src/effect/SplatterSystem.cpp:176 | a slot is free exactly when its fade is at most 0 |
| Splatter.SplatReusesFadedSlot | src/effect/SplatterSystem.cpp:173-185 | a new splat lands on a faded-out slot whenever there is one |
| Splatter.SplatRect | src/effect/SplatterSystem.cpp:187 | the decal is a size by size square centred on the source's x and z |
| Splatter.SpraySize | src/effect/SplatterSystem.cpp:142-143 | the spray size is clamped to [10, 100] and unchanged inside that range |
| Splatter.SprayCountBounds | src/effect/SplatterSystem.cpp:142-145 | a spray emits half its clamped size, truncated, which is between 5 and 50, so the lower bound of 1 never acts |
| Splatter.Interaction | src/effect/SplatterSystem.cpp:191-196 | the interaction changes nothing about a particle but its life |
| Splatter.InteractionKillsBelowGround | src/effect/SplatterSystem.cpp:191-196 | a live particle dies exactly when it is at least half the particle size below the ground; otherwise it is untouched |
| Splatter.SplatterSystem.constructor | src/effect/SplatterSystem.cpp:37-67 | all decal slots start faded out; the particles get size 4, gravity -120 and drag 0.25; splatting below is on, fade speed 0.3, drift factor 100, pitch range 0.3, with four burst sources |
| Splatter.SplatterSystem.Update | src/effect/SplatterSystem.cpp:82-89 | the particles update, and every decal's fade drops by fade speed times delta, with no floor |
| Splatter.SplatterSystem.Splat | src/effect/SplatterSystem.cpp:171-188 | the chosen slot (the first faded-out one, else the earliest most faded one) gets fade 1 and the decal square, and no other slot changes |
| Splatter.SplatterSystem.Spray | src/effect/SplatterSystem.cpp:140-168 | a spray emits its particle count at the source; it splats exactly when splatting below is on and the source is less than half the clamped size above ground; the burst plays on the first silent source, else on the earliest one furthest along |
| Splatter.SplatterSystem.Draw | src/effect/SplatterSystem.cpp:92-137 | the particles are drawn, then exactly the decal slots with a positive fade, in slot order |
| StaticModel.Attribute | src/resource/StaticModel.cpp:42-58 | an index that is missing or reads as 0 keeps the current attribute; any other index yields the 1-based list element, and is undefined exactly when outside the list |
| StaticModel.ApplyField | src/resource/StaticModel.cpp:40-59 | a face field updates position, texture coordinate and normal, and is defined exactly when each of its indices is skipped or in range |
| StaticModel.FacePoints | src/resource/StaticModel.cpp:38-63 | a face has one point per field, and is defined exactly when every field's indices are in range |
| StaticModel.FaceOf | src/resource/StaticModel.cpp:33-64 | the Face constructor: one point per field, defined exactly when every field is in range; the material is the current one, or empty for a face without fields since it is only assigned inside the loop |
| StaticModel.FacePointAt | src/resource/StaticModel.cpp:35-61 | each point is the previous point (the default vertex for the first) updated by its own field, because one vertex variable is reused |
| StaticModel.SkippedIndexKeepsPrevious | src/resource/StaticModel.cpp:44-58 | a skipped index carries the previous point's attribute over; a position index in range takes that list element |
| StaticModel.FacePointsStep | src/resource/StaticModel.cpp:38-61 | consuming one field appends its point in front of the points of the remaining fields |
| StaticModel.NewFace | src/resource/StaticModel.cpp:33-64 | the field-consuming loop of the Face constructor yields exactly the face FaceOf specifies, including the out-of-range error |
| StaticModel.MakePart | src/resource/StaticModel.cpp:67-75 | a part of `count` indices ends at `current`; it has a material exactly when the material name is non-empty |
| StaticModel.ModeOf | src/resource/StaticModel.cpp:250-264 | a face size selects a primitive mode exactly when it is 3 or 4 points |
| StaticModel.AllPoints | src/resource/StaticModel.cpp:248-289 | the flattened face points include at least the last face's points |
| StaticModel.FaceStep | src/resource/StaticModel.cpp:248-292 | one more face closes a part exactly when its material differs from the last one, and otherwise extends the open run; the mode is fixed only while still 0 |
| StaticModel.TilesExtend | src/resource/StaticModel.cpp:271-277 | a part starting where tiled parts end keeps the parts tiling |
| StaticModel.ProgressInvariant | src/resource/StaticModel.cpp:240-292 | after any faces, the closed parts tile the indices up to the open part, one per material change, the first without material |
| StaticModel.ProgressStep | src/resource/StaticModel.cpp:248-292 | one face more preserves the generateParts invariant |
| StaticModel.PartsTile | src/resource/StaticModel.cpp:240-295 | the parts tile the index list from 0, number one more than the material changes, the first has no material (and is empty when the first face has one), the last carries the last face's material |
| StaticModel.FirstChangeClosesEmptyPart | src/resource/StaticModel.cpp:271-277 | when the first face has a material, an empty part without material is closed before any point is counted |
| StaticModel.NoChangeMeansNoMaterial | src/resource/StaticModel.cpp:271-277 | if no part was closed, no face had a material |
| StaticModel.ModeFromFirstFace | src/resource/StaticModel.cpp:266-269 | a mode once set is kept; starting from 0 the first face of three or four points sets it |
| StaticModel.IndexOf | src/resource/StaticModel.cpp:281-285 | QVector::indexOf: -1 exactly when the vertex is absent, otherwise the first position holding it |
| StaticModel.NamesGrow | src/resource/StaticModel.cpp:283-285 | appending to the vertex or index list keeps every index naming its point |
| StaticModel.NamesAppend | src/resource/StaticModel.cpp:279-289 | indices naming two runs of points name their concatenation |
| StaticModel.AddedFromGrow | src/resource/StaticModel.cpp:281-284 | every vertex added for later points is one of the points seen so far |
| StaticModel.BuiltAppend | src/resource/StaticModel.cpp:279-289 | de-duplicating points after points is de-duplicating their concatenation |
| StaticModel.Continue | src/resource/StaticModel.cpp:157-165 | the continuation loop only stops on a trailing backslash when the input is exhausted, consumes lines forward, and keeps a trimmed line trimmed at the front |
| StaticModel.LogicalLine | src/resource/StaticModel.cpp:155-165 | a logical line consumes at least one physical line and is empty or starts with a non-space |
| StaticModel.LogicalLines | src/resource/StaticModel.cpp:154-165 | the input splits into at most as many logical lines as lines, each empty or starting with a non-space |
| StaticModel.ReadLogicalLine | src/resource/StaticModel.cpp:155-165 | the read-trim-continue loop returns exactly the logical line and the next line index |
| StaticModel.MaterialName | src/resource/StaticModel.cpp:298-311 | the material name is the base name, '_' and the field when that file exists, and empty exactly when it does not |
| StaticModel.Step | src/resource/StaticModel.cpp:167-210 | blank and comment lines, g, s and mtllib change nothing; v, vt and vn need 3, 2 and 3 numbers and append one element to their list; f appends one face of one point per field; only usemtl changes the material; earlier faces are kept |
| StaticModel.Fold | src/resource/StaticModel.cpp:154-211 | the logical lines read in order by the keyword dispatch, undefined as soon as one line is |
| StaticModel.FoldCounts | src/resource/StaticModel.cpp:154-211 | a file read without undefined behaviour has one face per f line and one list element per v, vt and vn line, with earlier faces kept in order |
| StaticModel.Dispatch | src/resource/StaticModel.cpp:172-210 | the keyword dispatch of parse, consuming the field list as the code does, yields exactly Step |
| StaticModel.ReadObj | src/resource/StaticModel.cpp:154-211 | the reading loop of parse yields the fold of Step over the logical lines |
| StaticModel.StaticModelData.constructor | src/resource/StaticModel.cpp:81-87 | new model data is unloaded with mode 0 |
| StaticModel.StaticModelData.Unload | src/resource/StaticModel.cpp:96-121 | a loaded model drops its parts, vertices and indices; an unloaded one is left alone |
| StaticModel.StaticModelData.AddPoint | src/resource/StaticModel.cpp:281-285 | the vertex is appended only when absent, and its index in the vertex list is appended to the index list |
| StaticModel.StaticModelData.AddPoints | src/resource/StaticModel.cpp:279-289 | after a face's points: old lists kept in front, distinct vertices stay distinct, added vertices are points, and one index per point names it |
| StaticModel.StaticModelData.TakeFace | src/resource/StaticModel.cpp:250-289 | one face fixes the mode if unset and adds its points by de-duplication |
| StaticModel.StaticModelData.GenerateParts | src/resource/StaticModel.cpp:240-295 | the parts are those PartsTile describes, the mode is fixed by the first supported face, and every face point is de-duplicated with an index naming it |
| StaticModel.StaticModelData.Parse | src/resource/StaticModel.cpp:135-219 | an unopened file changes nothing; a file read without undefined behaviour that has faces gets its parts, mode, vertices and indices generated |
| StaticModel.StaticModelData.Load | src/resource/StaticModel.cpp:124-132 | load always marks the data loaded; a parsed model holds distinct vertices, one index per face point naming it, and parts tiling the index list |
| TerrainBuild.RawGrid | src/geometry/Terrain.cpp:52-63 | one raw position per heightmap pixel, W H of them |
| TerrainBuild.RawPositions | src/geometry/Terrain.cpp:52-63 | the nested loop yields exactly the raw grid: the offset plus (w size.x / W, red size.y / 256, h size.z / H) for every pixel (w, h), row by row |
| TerrainBuild.RawRow | src/geometry/Terrain.cpp:55-62 | the inner loop appends the raw positions of one row, so the sequence stays the raw grid of the pixels so far |
| TerrainBuild.SmoothedGrid | src/geometry/Terrain.cpp:135-137 | smoothing keeps the length of the position list |
| TerrainBuild.CopyBorderRow | src/geometry/Terrain.cpp:141-164 | the first and last rows are copied unchanged; nothing else in the buffer changes |
| TerrainBuild.SmoothInterior | src/geometry/Terrain.cpp:146-160 | the entries strictly between the first and last of a middle row become (8 neighbours + 4 centre) / 12; nothing else changes |
| TerrainBuild.SmoothRow | src/geometry/Terrain.cpp:143-162 | a middle row: its first and last entries copied, the ones between averaged; nothing else changes |
| TerrainBuild.SmoothedEntryInterior | src/geometry/Terrain.cpp:148-159 | the smoothed entry of an interior grid point is its neighbourhood average |
| TerrainBuild.SmoothedEntryBorder | src/geometry/Terrain.cpp:141-164 | the smoothed entry of a border grid point is a copy of the input |
| TerrainBuild.SmoothedPositions | src/geometry/Terrain.cpp:135-168 | the output has the input's length, border rows and columns copied and every interior entry averaged |
| TerrainBuild.SmoothingKeepsConstant | src/geometry/Terrain.cpp:148-158 | a flat terrain (all positions equal) is left unchanged by smoothing, since the weights sum to 12 |
| TerrainBuild.SmoothingKeepsHeightRange | src/geometry/Terrain.cpp:135-168 | one smoothing pass never moves a height of the grid outside the range of the input heights |
| TerrainBuild.SmoothedAtInRange | src/geometry/Terrain.cpp:148-158 | an interior entry after smoothing has a height within the range of the input heights, since the weights are non-negative and sum to 12 |
| TerrainBuild.SmoothedTimesKeepsHeightRange | src/geometry/Terrain.cpp:66-67 | any number of smoothing passes keeps every height within the range of the raw heights |
| TerrainBuild.SmoothedTimes | src/geometry/Terrain.cpp:66-67 | repeated smoothing keeps the length; a non-positive pass count smooths nothing |
| TerrainBuild.RawGridSteps | src/geometry/Terrain.cpp:57-61 | one pixel further along a row adds size.x / W to x and keeps z; one row further adds size.z / H to z and keeps x |
| TerrainBuild.SmoothedAtKeepsGround | src/geometry/Terrain.cpp:148-158 | averaging a neighbourhood whose x and z step evenly gives back the centre's x and z |
| TerrainBuild.SmoothingKeepsGround | src/geometry/Terrain.cpp:135-168 | on an evenly stepped grid, one smoothing pass changes no x and no z, only heights |
| TerrainBuild.SmoothingKeepsSteps | src/geometry/Terrain.cpp:135-168 | one smoothing pass keeps an evenly stepped grid evenly stepped by the same cell size |
| TerrainBuild.SmoothedTimesSteps | src/geometry/Terrain.cpp:66-67 | any number of smoothing passes keeps an evenly stepped grid evenly stepped by the same cell size |
| TerrainBuild.SmoothedRawSteps | src/geometry/Terrain.cpp:52-67 | the raw positions after any number of smoothing passes still step by (size.x / W, size.z / H) |
| TerrainBuild.StripIndices | src/geometry/Terrain.cpp:109-117 | the index buffer has exactly the requested length |
| TerrainBuild.PushRowIndices | src/geometry/Terrain.cpp:112-116 | one row of the index loop appends the pairs (w + hW, w + (h+1)W) for every column, keeping the buffer in strip form |
| TerrainBuild.BuildIndices | src/geometry/Terrain.cpp:109-117 | the index loop builds the 2W(H-1) strip indices |
| TerrainBuild.StripIndicesShape | src/geometry/Terrain.cpp:109-117 | every index is < W H, and entries 2(w + hW) and 2(w + hW) + 1 are the vertices (w, h) and (w, h + 1) |
| TerrainBuild.StripPair | src/geometry/Terrain.cpp:114-115 | the pair pushed for (w, h) sits at entries 2(w + hW) and 2(w + hW) + 1 |
| TerrainBuild.StripIndicesInGrid | src/geometry/Terrain.cpp:114-115 | every index names a vertex of the grid |
| TerrainBuild.QNormal | src/geometry/Terrain.cpp:80-84 | the normal function used is the unit plane normal of three points |
| TerrainBuild.NormalOfCell | src/geometry/Terrain.cpp:76-91 | the normal stored at the flat index of grid point (w, h) is the normal defined for (w, h) |
| TerrainBuild.FillRowNormals | src/geometry/Terrain.cpp:78-85 | in row h < H - 1, each vertex before the last column gets the normal of triangle (w, h), (w, h + 1), (w + 1, h); nothing else changes |
| TerrainBuild.FillLastRowNormals | src/geometry/Terrain.cpp:88-91 | every vertex of the last row gets normal (0, 1, 0); nothing else changes |
| TerrainBuild.FillNormals | src/geometry/Terrain.cpp:75-91 | every vertex gets its defined normal; positions and texture coordinates are untouched |
| TerrainBuild.FillRowTexCoords | src/geometry/Terrain.cpp:96-99 | vertex (w, h) of row h gets texture coordinate (w, h); nothing else changes |
| TerrainBuild.FillTexCoords | src/geometry/Terrain.cpp:93-100 | every vertex gets its grid point as texture coordinate; positions and normals are untouched |
| TerrainBuild.Build | src/geometry/Terrain.cpp:37-124 | the constructor: factor (W / size.x, H / size.z), vertices with the smoothed raw positions, their normals and texture coordinates, and the strip index buffer of length 2W(H-1) |
| TerrainBuild.BorderNormalsUp | src/geometry/Terrain.cpp:86-90 | the last column and the last row have normal (0, 1, 0) |
| TerrainBuild.TerrainVertices | src/geometry/Terrain.cpp:75-100 | one vertex per grid position |
| TerrainMap.MapRoundTrip | src/geometry/Terrain.hpp:186-264 | with non-zero factors fromMapF is the exact inverse of toMapF over the reals, for points and for sizes, in both orders |
| TerrainMap.ToMap | src/geometry/Terrain.hpp:222-228 | toMap of a point is the cell containing toMapF of it: the per-axis floor |
| TerrainMap.ToMapSize | src/geometry/Terrain.hpp:231-237 | toMap of a size is the per-axis ceiling, so the cells cover the size |
| TerrainMap.ToMapRect | src/geometry/Terrain.hpp:240-246 | toMap of a rectangle is anchored at toMap of its corner with size toMap of its size |
| TerrainMap.FromMap | src/geometry/Terrain.hpp:267-273 | fromMap of a grid point is fromMapF of the same point taken as reals |
| TerrainMap.CellRoundTrip | src/geometry/Terrain.hpp:222-273 | mapping a cell corner back to the map finds the same cell |
| TerrainMap.FromMapSize | src/geometry/Terrain.hpp:276-282 | fromMap of a QSize truncates each real quotient toward zero (an integer QSize) before it becomes a QSizeF |
| TerrainMap.VertexIndexInRange | src/geometry/Terrain.hpp:341-344 | for 0 <= x < W and 0 <= y < H the index x + y W is inside the W H vertices |
| TerrainMap.VertexIndexInBounds | src/geometry/Terrain.hpp:341-368 | the index x + y W is in bounds and x and y read back from it as remainder and quotient, so distinct grid points never share a slot |
| TerrainMap.RowStartIsProduct | src/geometry/Terrain.cpp:110-117 | the start of row h, counted by repeated addition, is h W |
| TerrainMap.CellIndex | src/geometry/Terrain.hpp:365-368 | grid point (w, h) sits at RowStart(h) + w, inside the grid, and its row and column read back as h and w |
| TerrainMap.CellInGrid | src/geometry/Terrain.hpp:341-344 | grid point (w, h) of a W x H grid has a slot in it |
| TerrainMap.CellReadsBack | src/geometry/Terrain.hpp:365-368 | the row and column recovered from (w, h)'s flat index are h and w |
| TerrainMap.LastRowEnds | src/geometry/Terrain.cpp:88-91 | the last row of a W x H grid ends where the grid does |
| TerrainMap.IndexInGrid | src/geometry/Terrain.cpp:70-73 | every flat index below W H is the index of an in-range grid point |
| TerrainMap.IndexToCell | src/geometry/Terrain.cpp:70-73 | the same, for the repeated-addition row start |
| TerrainMap.ColInRange | src/geometry/Terrain.hpp:343 | the column of a non-negative flat index lies in [0, W) |
| TerrainMap.RowColAreDivMod | src/geometry/Terrain.hpp:343 | row and column of a flat index are its quotient and remainder by W |
| TerrainMap.RowFits | src/geometry/Terrain.cpp:53-63 | row h of a W x H grid ends within the grid |
| TerrainMap.ToMapF | src/geometry/Terrain.hpp:177-192 | toMapF: the world point minus the terrain offset, scaled by the map factor per axis (x and z) |
| TerrainMap.FromMapF | src/geometry/Terrain.hpp:249-255 | fromMapF: the map point divided by the map factor, plus the offset |
| TerrainMap.VertexIndex | src/geometry/Terrain.hpp:341-344 | vertex (x, y) of a W-wide grid is stored at x + y W |
| TerrainMap.VertexPosition | src/geometry/Terrain.hpp:341-350 | getVertexPosition: the position of the vertex stored at that index, defined for grid points only |
| TerrainMap.VertexNormal | src/geometry/Terrain.hpp:353-362 | getVertexNormal: the normal of the vertex stored at that index, defined for grid points only |
| TerrainQuery.CellTriangle | src/geometry/Terrain.cpp:254-263 | the triangle of a cell reads three in-grid vertices: (x, y), (x, y+1), (x+1, y) for the lower half, (x+1, y+1), (x+1, y), (x, y+1) for the upper |
| TerrainQuery.GetTriangleTruncating | src/geometry/Terrain.cpp:245-266 | as written: a triangle iff the cell found by truncation toward zero lies in [0, W-2] x [0, H-2] |
| TerrainQuery.GetTriangle | src/geometry/Terrain.cpp:245-266 | corrected: a triangle iff the map point lies in [0, W-1) x [0, H-1), taken from the cell that contains it |
| TerrainQuery.GetTriangleContainsPoint | src/geometry/Terrain.cpp:252-263 | the split rule picks the half that contains the point: its weights along the triangle's grid edges are non-negative and sum to at most 1 |
| TerrainQuery.TruncatingAgreesOnNonNegative | src/geometry/Terrain.cpp:247 | for non-negative map points truncation and floor pick the same triangle |
| TerrainQuery.TruncatingAcceptsPointOutsideGrid | src/geometry/Terrain.cpp:247-250 | the map point (-0.5, 0.5) is outside the grid, yet the truncating version returns cell (0, 0)'s lower triangle, which does not contain it |
| TerrainQuery.ClampCell | src/geometry/Terrain.cpp:273-352 | the clamped cell lies in [0, W-2] x [0, H-2] (W, H >= 2), an in-range cell is kept, and each out-of-range coordinate goes to the nearest edge |
| TerrainQuery.GetTriangleClamped | src/geometry/Terrain.cpp:269-296 | the nearest triangle: the truncated cell clamped into the grid, split by the fraction relative to the clamped cell |
| TerrainQuery.ClampedAgreesInside | src/geometry/Terrain.cpp:245-296 | inside the grid the clamping variant returns the triangle below the point |
| TerrainQuery.PlaneHeight | src/geometry/Terrain.cpp:305 | the height formula gives the point of the triangle's plane on the vertical line through (x, z), and exists iff the normal's y is non-zero |
| TerrainQuery.PlaneHeightUnique | src/geometry/Terrain.cpp:305 | that height is the only point of the plane on that vertical line |
| TerrainQuery.GetHeight | src/geometry/Terrain.cpp:299-307 | a height exactly where getTriangle (truncating cell lookup) finds a triangle whose normal has a non-zero y (the divisor), and then the height of that triangle's plane at the point |
| TerrainQuery.CellNormalNotHorizontal | src/geometry/Terrain.cpp:254-263 | on a grid whose vertices step by non-zero cell sizes sx and sz, both triangles of every cell have an edge cross product with y = sx sz, so their normal's y is non-zero |
| TerrainQuery.GetHeightOnRegularGrid | src/geometry/Terrain.cpp:299-307 | on such a grid getHeight answers exactly where getTriangle finds a triangle |
| TerrainQuery.BuiltTerrainIsRegular | src/geometry/Terrain.cpp:52-67 | the constructor's vertices step by (size.x / W, size.z / H) along rows and columns, for any heightmap and any number of smoothing passes |
| TerrainQuery.BuiltTerrainHasHeights | src/geometry/Terrain.cpp:299-307 | on a terrain the constructor built (size.x, size.z non-zero), getHeight answers exactly where getTriangle finds a triangle: its division by the normal's y never meets zero |
| TerrainQuery.GetHeightClamped | src/geometry/Terrain.cpp:310-315 | the height lies on the plane of the nearest triangle |
| TerrainQuery.HeightVariantsAgreeInside | src/geometry/Terrain.cpp:299-315 | inside the grid both getHeight variants agree |
| TerrainQuery.GetNormal | src/geometry/Terrain.cpp:318-325 | a normal exactly where getTriangle (truncating cell lookup) finds a triangle, and then that triangle's normal |
| TerrainQuery.GetNormalClamped | src/geometry/Terrain.cpp:328-332 | the normal is orthogonal to the edges of the nearest triangle |
| TerrainQuery.GetHeightAboveGround | src/geometry/Terrain.hpp:326-332 | succeeds exactly when the truncating getHeight does, and then is y minus that height |
| TerrainQuery.GetHeightAboveGroundClamped | src/geometry/Terrain.hpp:335-338 | y minus the height over the nearest triangle |
| TerrainQuery.QuadIntersection | src/geometry/Terrain.cpp:342-387 | the cell is clamped; true iff the lower or the upper triangle hits at 0 < d < length, and only then the length shrinks to d; otherwise it is unchanged |
| TerrainQuery.QuadHitLiesOnQuad | src/geometry/Terrain.cpp:356-384 | an accepted hit is a ground point: it lies on one of the quad's two triangles |
| TerrainQuery.CellTest | src/geometry/Terrain.cpp:412-415 | the three quads of one step are checked in turn with the length left by the one before; the length never grows |
| TerrainQuery.SideOffset | src/geometry/Terrain.cpp:403-408 | the side quads lie one cell away along the axis the line moves less on |
| TerrainQuery.LineStep | src/geometry/Terrain.cpp:426-436 | one Bresenham step before the target: the steps taken become exactly the step rule applied to the steps before, x, y or both advance by one toward the target, neither passes it, and the error term stays dx (j+1) - dy (i+1) |
| TerrainQuery.BresenhamNext | src/geometry/Terrain.cpp:426-436 | the step rule: x advances when twice the error exceeds -dy, y when it is below dx |
| TerrainQuery.BresenhamStaysNear | src/geometry/Terrain.cpp:426-436 | a step keeps the walk within half a cell of the segment: |dx j - dy i| <= max(dx, dy) / 2 |
| TerrainQuery.BresenhamWalkNearSegment | src/geometry/Terrain.cpp:410-438 | every cell of the walk lies within half a cell of the segment from start to target |
| TerrainQuery.BresenhamWalkUnique | src/geometry/Terrain.cpp:410-438 | the walk is determined by its ends: of two walks between the same cells, one is a prefix of the other |
| TerrainQuery.WalkLine | src/geometry/Terrain.cpp:410-438 | the walk starts at the start cell, moves to an 8-neighbour each step, every cell stays in the box of start and target and follows the step rule from the previous one (so it is the one Bresenham walk and stays within half a cell of the segment), it stops at the first cell whose test hits, and without a hit ends exactly at the target |
| TerrainQuery.IntersectLine | src/geometry/Terrain.cpp:390-439 | walks the Bresenham cells from toMap(origin) to toMap(origin + dir length) testing three quads per cell; on a hit 0 < new length < length and the normal is the ground normal at the hit point; on a miss length and normal are unchanged |
| TerrainQuery.ClipToCells | src/geometry/Terrain.cpp:173 | the clipped rectangle, when not empty, lies inside [0, W-1) x [0, H-1) |
| TerrainQuery.ClipIsIntersection | src/geometry/Terrain.cpp:173 | a cell is in the clipped rectangle iff it is in the rectangle and in the drawable cells |
| TerrainQuery.DrawPatchMap | src/geometry/Terrain.cpp:171-215 | nothing is drawn for an empty clipped rectangle; otherwise one strip per row, in order, with 2 width + 2 indices from index 2 (x + W slice) |
| TerrainQuery.BottomRowGuardRedundant | src/geometry/Terrain.cpp:176-177 | the bottom-row guard never fires once the rectangle is clipped |
| TerrainQuery.PatchCallInBuffer | src/geometry/Terrain.cpp:185-194 | every patch strip stays inside the index buffer and covers exactly columns x .. x + width of its row pair |
| TerrainQuery.Draw | src/geometry/Terrain.cpp:218-242 | one strip of 2W indices per row pair, the strip for row k starting at 2 W k |
| TerrainQuery.DrawTilesBuffer | src/geometry/Terrain.cpp:226-235 | the strips of draw() tile the index buffer: each ends where the next begins, the last at its end |
| TerrainQuery.TruncCell | src/geometry/Terrain.cpp:247 | the cell getTriangle picks: the map point converted to QPoint, each coordinate truncated toward zero |
| TerrainQuery.FloorCell | src/geometry/Terrain.cpp:245-250 | corrected: the cell that contains the map point, whose corner is at or below it and within one cell of it |
| Text.DigitChar | src/scene/object/World.cpp:191 | a digit is written as the character whose distance from '0' is its value |
| Text.Decimal | src/scene/object/World.cpp:191 | a non-negative number is written as at least one decimal digit |
| Text.DecimalRoundTrip | src/scene/object/World.cpp:191 | reading the written digits back gives the number |
| Text.ToInt | src/resource/StaticModel.cpp:44-56 | toInt gives the value of a decimal string, with an optional + or - sign, that fits a 32-bit int; 0 when the value overflows, for the empty string, a lone sign, or anything that is not a signed number |
| Text.ToIntOfDecimal | src/resource/StaticModel.cpp:44 | toInt reads back what number() writes, for every non-negative int |
| Text.ToIntOfSignedDecimal | src/resource/StaticModel.cpp:44 | a minus sign before a decimal reads as its negation down to -2^31 and as 0 below; a plus sign reads as the number itself |
| Text.Split | src/resource/StaticModel.cpp:40 | split on a separator yields at least one piece, and no piece contains the separator |
| Text.JoinEmptyFirst | src/resource/StaticModel.cpp:40 | an empty first piece joins to a leading separator |
| Text.JoinConsFirst | src/resource/StaticModel.cpp:40 | a character in front of the first piece comes first in the join |
| Text.JoinSplit | src/resource/StaticModel.cpp:40 | joining the pieces of a split with the same separator gives the string back, so split loses nothing |
| Text.NonEmpty | src/resource/StaticModel.cpp:172 | skipping empty parts keeps only non-empty pieces of the original list, the first one first |
| Text.Words | src/resource/StaticModel.cpp:172 | the words of a line are non-empty and contain no space, and a line not starting with a space starts with its first word |
| Text.TrimLeft | src/resource/StaticModel.cpp:155 | leading white space is removed and only white space is removed |
| Text.TrimRight | src/resource/StaticModel.cpp:155 | trailing white space is removed and only white space is removed |
| Text.Trim | src/resource/StaticModel.cpp:155-164 | a trimmed line neither starts nor ends with white space, is a contiguous part of the line, and everything cut off is white space |
| Text.Lead | src/resource/StaticModel.cpp:155 | the number of leading white-space characters is at most the length |
| Text.TrimIdempotent | src/resource/StaticModel.cpp:155 | trimming a trimmed line changes nothing |
| Triangle.Normal | src/utility/Triangle.hpp:44 | the triangle's normal is orthogonal to both edges leaving p |
| Triangle.IntersectRay | src/utility/Triangle.cpp:29-54 | a hit exactly when det >= FLT_EPSILON (not parallel, not back-facing), 0 <= u <= det, v >= 0 and u + v <= det; on a hit distance * det = edge2 . qVec; on a miss the caller's distance is left as it was |
| Triangle.IntersectCulledRay | src/utility/Triangle.cpp:57-68 | hits iff the plain test hits at a distance >= 0, reporting that same distance; otherwise the distance is untouched |
| Triangle.DetSwap | src/utility/Triangle.cpp:31-36 | swapping the corners q and r negates det |
| Triangle.AtMostOneWinding | src/utility/Triangle.cpp:37-38 | the test is one-sided: no ray hits both windings of one triangle |
| Triangle.HitLiesOnTriangle | src/utility/Triangle.cpp:40-53 | a reported hit is a real intersection: origin + dir * distance is the point of the triangle with barycentric coordinates (u/det, v/det), both non-negative and summing to at most 1 |
| Vector.OrthoNormalize | src/utility/Vector.cpp:32-40 | zero vector when the component of v orthogonal to `fixed` is no longer than FLT_EPSILON; otherwise a unit vector that, scaled by that length, is the orthogonal component |
| Vector.OrthoNormalizeIsOrthogonal | src/utility/Vector.cpp:34-39 | for a unit `fixed` the result is orthogonal to it |
| Vector.StringList.TakeFirst2D | src/utility/Vector.cpp:43-48 | removes exactly the first two entries and returns them, converted, as (x, y); needs at least two entries |
| Vector.StringList.TakeFirst3D | src/utility/Vector.cpp:51-57 | removes exactly the first three entries and returns them, converted, as (x, y, z) in order; needs at least three entries |
| Vertex.DefaultP3f | src/geometry/Vertex.hpp:32-34 | a default position-only vertex sits at the origin |
| Vertex.DefaultP3fT2f | src/geometry/Vertex.hpp:72-75 | a default textured vertex has position 0 and texture coordinate 0 |
| Vertex.DefaultP3fN3fT2f | src/geometry/Vertex.hpp:120-124 | a default full vertex has position 0, normal (0, 1, 0) and texture coordinate 0 |
| Vertex.EqualP3f | src/geometry/Vertex.hpp:38-41 | `==` compares the position only, which for this layout is exactly value equality |
| Vertex.EqualP3fT2f | src/geometry/Vertex.hpp:79-83 | `==` compares position and texture coordinate, exactly value equality |
| Vertex.EqualP3fN3fT2f | src/geometry/Vertex.hpp:128-133 | `==` compares position, normal and texture coordinate componentwise, exactly value equality |
| Vertex.NotEqualP3f | src/geometry/Vertex.hpp:43-46 | `!=` holds exactly when the vertices differ |
| Vertex.NotEqualP3fT2f | src/geometry/Vertex.hpp:85-88 | `!=` holds exactly when the vertices differ |
| Vertex.NotEqualP3fN3fT2f | src/geometry/Vertex.hpp:135-138 | `!=` holds exactly when the vertices differ |
| Vector.StringList.constructor | src/resource/StaticModel.cpp:172 | a string list holds exactly the given entries, in order |
| Vegetation.SearchFindsFirstDry | src/scene/object/environment/Forest.cpp:47-60 | the placement of one tree stops at the first candidate at or above the water level among its first 1000 draws, and gives up exactly when all of them are under water |
| Vegetation.Instances | src/scene/object/environment/Forest.cpp:62-69 | one instance matrix per placed spot |
| Vegetation.SpotsAtMostNumber | src/scene/object/environment/Forest.cpp:45 | at most the requested number of instances is placed |
| Vegetation.SpotsAreDry | src/scene/object/environment/Forest.cpp:49-60 | every placed instance stands at or above the water level, at the candidate of one of the draws |
| Vegetation.ShortOnlyWhenFlooded | src/scene/object/environment/Forest.cpp:54-58 | fewer instances than requested are placed only when some instance met 1000 consecutive candidates under water |
| Vegetation.DryGroundPlacesAll | src/scene/object/environment/Forest.cpp:45-70 | where every candidate is dry, exactly the requested number is placed, one per draw in order |
| Vegetation.CandidateInBounds | src/scene/object/environment/Forest.cpp:38-53 | a candidate from a draw in the unit circle lies horizontally within the larger radius of the centre, inside the bounding sphere |
| Vegetation.SpotsInBounds | src/scene/object/environment/Forest.cpp:43-60 | every placed instance lies within the bounding sphere |
| Vegetation.RaisingQualityKeepsShown | src/scene/object/environment/Grass.cpp:82 | vegetation is shown exactly when priority + quality >= 99, so raising the quality never hides it |
| Vegetation.GrassSearchAsWritten | src/scene/object/environment/Grass.cpp:44-55 | as written: the grass loop, run for a bounded number of iterations, tests `tries` (never incremented) against 1000 and stops at a dry candidate |
| Vegetation.GrassNeverGivesUp | src/scene/object/environment/Grass.cpp:46-57 | as written: tries is never incremented, so the grass loop never gives up; it stops only at a dry candidate and keeps searching while every candidate is under water |
| Vegetation.GrassFloodedSiteLoopsForever | src/scene/object/environment/Grass.cpp:46-57 | on a site entirely under water the as-written grass loop is still searching after any number of iterations, while the counted search gives up |
| Vegetation.SpotsAt | src/scene/object/environment/Grass.cpp:41-62 | the spots of the chosen draws, in order: the i-th spot is the candidate of the i-th draw |
| Vegetation.GrassDrawsStep | src/scene/object/environment/Grass.cpp:41-62 | one more grass instance at the first dry draw after the last keeps the draws grass's loop settles on, and adds exactly that instance's matrix |
| Vegetation.FirstDryUnique | src/scene/object/environment/Grass.cpp:45-55 | the first dry draw from a given start is unique |
| Vegetation.GrassDrawsUnique | src/scene/object/environment/Grass.cpp:41-62 | grass's placement is determined by the draws: two placements of the same number from the same first draw use the same draws |
| Vegetation.GrassOnDryGround | src/scene/object/environment/Grass.cpp:41-62 | on ground where every candidate is dry, grass uses consecutive draws, one per instance, as the forest does |
| Vegetation.GrassDrawAdvances | src/scene/object/environment/Grass.cpp:41-62 | the same, one instance at a time |
| Vegetation.FindGrassSpot | src/scene/object/environment/Grass.cpp:44-55 | as written: the do-while loop, which ends only at a dry candidate, returns the first dry draw from its start and that candidate |
| Vegetation.FindSpot | src/scene/object/environment/Forest.cpp:47-60 | the do-while loop returns exactly the draw Search finds, or reports giving up |
| Vegetation.PlantStep | src/scene/object/environment/Forest.cpp:45-70 | one placed instance appends its spot and its matrix, translated to the spot then shaped |
| Vegetation.Vegetation.constructor | src/scene/object/environment/Forest.cpp:34-71 | Forest's constructor: priority, position from the map position, bounding radius the larger map radius, and the instances exactly those of the spots the bounded search finds |
| Vegetation.Vegetation.Grass | src/scene/object/environment/Grass.cpp:30-63 | Grass's constructor as written: the same position and bounding radius, and exactly `number` instances, each at the first dry candidate after the previous one's draw |
| Vegetation.Vegetation.PlantGrass | src/scene/object/environment/Grass.cpp:41-62 | Grass's placement loop appends exactly `number` instances, at the draws GrassDraws characterises |
| Vegetation.Vegetation.Plant | src/scene/object/environment/Forest.cpp:45-70 | the placement loop appends exactly the matrices of the spots Spots specifies |
| Vegetation.Vegetation.Draw | src/scene/object/environment/Grass.cpp:80-84 | drawSelf draws all instances exactly when the priority passes the quality gate, and nothing otherwise |
| Vegetation.Search | src/scene/object/environment/Forest.cpp:47-60 | the search for one tree's spot: draw by draw, giving up after MaxTries draws, else the first dry candidate |
| Vegetation.Spots | src/scene/object/environment/Forest.cpp:45-70 | the spots of up to `number` trees, each search starting after the previous spot's draw, the placement ending at the first search that gives up |
| World.LevelMessage | src/scene/object/World.cpp:191 | the message is "Level " followed by the level number in decimal, with a minus sign for a negative level, and reads back as that number |
| World.Rate | src/scene/object/World.cpp:176-181 | the time of day runs at 0.002 a second, 0.202 while PageDown is held, -0.198 while PageUp is held, and 0.002 with both |
| World.AdvanceStaysInDay | src/scene/object/World.cpp:176-184 | moving forward by at most a day from within [0, 1] stays within [0, 1] |
| World.ReverseGoesNegative | src/scene/object/World.cpp:180-184 | running backwards past midnight is not wrapped: the world's time goes negative and keeps falling, while the sky still sees the right fraction of the day |
| World.SkySeesSameTime | src/scene/object/World.cpp:183-196 | the world's drop by 1 does not change the time of day the sky sees |
| World.Tick | src/scene/object/World.cpp:186-194 | a new level starts exactly when the level time reaches the duration; it then counts up by one from level time 0, otherwise the level time just advances |
| World.TickProgress | src/scene/object/World.cpp:186-194 | the level goes up by at most one per frame and the level time stays in [0, duration) |
| World.SplatterInteraction | src/scene/object/World.cpp:234-255 | a particle more than half its size below the water is slowed by gravity/1.1; one more than half its size below ground dies and, only on dry ground at HIGH quality, asks for a splat; its position and rotation never change |
| World.SplatOnlyWhenKilled | src/scene/object/World.cpp:249-254 | a particle that asks for a splat is dead afterwards, and a dead particle never revives |
| World.SplatBelow | src/scene/object/World.cpp:198-201 | splats below the ground are drawn exactly at MEDIUM splatter quality |
| World.Respawned | src/scene/object/World.cpp:257-266 | a dead enemy becomes spawning and every other state stays |
| World.World.constructor | src/scene/object/World.cpp:69-117 | the world starts at level 1 of a 20-second level, at time of day 0, with no time key held, no enemy and no light source |
| World.World.AddLightSource | src/scene/object/World.cpp:129-133 | a light source is appended unless it is already listed, so the list never holds one twice |
| World.World.RemoveLightSource | src/scene/object/World.cpp:136-139 | the light source's first occurrence is removed, and afterwards it is not listed at all |
| World.World.KeyPress | src/scene/object/World.cpp:142-155 | PageDown turns time lapse on, PageUp turns reverse time on, and other keys change nothing |
| World.World.KeyRelease | src/scene/object/World.cpp:158-171 | releasing PageDown or PageUp turns its effect off, and other keys change nothing |
| World.World.RespawnEnemies | src/scene/object/World.cpp:257-266 | every dead enemy becomes spawning, and no other state and no life changes |
| World.World.AdvanceClocks | src/scene/object/World.cpp:176-194 | the time of day and the level clock move on; a new level shows its number to the player and respawns the dead enemies |
| World.World.UpdateSelf | src/scene/object/World.cpp:174-203 | the clocks move on, the sky gets the time of day, splats below ground follow the quality, and the splatter system updates with the world's interaction callback |

## Left out

- Floating point: C `float` arithmetic is modelled over the reals, so rounding, NaN and infinities are not captured; `FLT_EPSILON` is a positive constant.
- TerrainQuery.GetHeight: on a triangle whose normal has y = 0 the source divides by zero and reports a non-finite height; the model gives no height there. On a terrain the constructor built this cannot happen (`BuiltTerrainHasHeights`); a terrain value with vertices placed otherwise is not covered.
- Square roots, `powf`, trigonometry and the random draws (`RandomNumber` in the forest, grass, power-ups and dummies) are parameters; square roots are constrained only by the predicate `IsSqrt`.
- Everything OpenGL does: the buffer uploads, shader and texture calls, `StaticModel::draw`, `StaticModel::generateBuffers`, and the GL-reading `FrustumTest::sync()`. The material model records the texture binds as a list of calls instead of issuing them.
- The Qt window, the input plumbing, `QSettings`, the HUD overlay and the stereo (Oculus) distortion pass. Key events reach the player as key codes.
- Audio: OpenAL sources, `AudioSample`, the Ogg Vorbis loader and the loader dispatch. Only the RIFF WAVE header reader is modelled.
- File input: the height map arrives as its red channel values rather than as a `QImage`. The OBJ parser receives the file's lines, and file existence is a parameter.
- Quaternion `lookAt`/`fromTo`, `slerp` and inversion, the rotation of the sun direction (the sky receives the sun's height as an input), and the player's velocity, drag, jump and swim physics.
- The global quality settings are passed as parameters rather than read from globals.
- Scene graph: objects live in an arena and are addressed by index. Raw-pointer aliasing, and an object owned by two parents, are not modelled.
- Scene graph: the traversals (`Trace`, `ModelMatrixOf`, `CollideNode`, `Graph.Traverse`, `Graph.IntersectLine`) and the walk up the parent chain carry a `fuel` bound. Graphs deeper than the fuel are not described.
- Scene graph: the `!isValid()` guard of `AObject::update` is an uninterpreted predicate `guard`.
- Scene graph: the frustum test in `draw` is an `accepts` parameter.
- Triangle.IntersectRay: the one-sided (back-face culling) behaviour is modelled as written and not reported as a defect, since every caller tests both windings.
- Eye.Eye.Update: requires a non-zero frame time, because the source divides the distance moved by it.
- Scene.Scene.UpdateObjects: requires a non-zero frame time, because the eye update divides by it.
- Scene.Scene.DrawBackground: requires a non-zero window height, because the source divides by it for the aspect ratio.
- World.World.UpdateSelf: the splat the interaction adds to the scene is not modelled, and `addRandomEnemy` has an empty body in the source.
- Laser.Laser.UpdateSelf: the impact particles, the sounds, the aiming slerp and the 50 points of damage dealt to the creature that was hit are not modelled.
- PowerUp.PowerUp.constructor: requires a recognised type name, because an unknown name leaves the power type uninitialised in the source.
- PowerUp.PowerUp.Respawn: the cool-down draw is given as a number in [1, 3], the range of the source's random draw.
- Splatter.SplatterSystem.Spray: the choice of sound slot is modelled, but playing the sound is not.
- Splatter.SplatterSystem.Draw: the blending and emission state are not modelled.
- Player.Player.UpdateSelf: the movement half of `updatePosition` (walking at 8 units per second or 16 while sprinting, swimming, flying in god mode), `updateTarget`, the torch's own update and the weapon placement are not modelled. The 2.5-unit reach test is the parameter `torchInReach`. For the torch only whether it is placed is modelled; where it is put (one unit ahead, on the ground) and its removal from or addition to the world are not.
- Player.WaterImmersion: requires a positive height above the ground, the only case in which the source calls it.
- StaticModel.GenerateParts: requires at least one face, because the source calls `faces->last()`.
- StaticModel: where the source hits Qt undefined behaviour (`takeFirst` on an empty list, `at()` out of range, `last()` of an empty list), the parse outcome is `Undefined` rather than a specific result.
- RiffWave: the unsigned underflow of a `fmt ` chunk shorter than 16 bytes is modelled with 32-bit wrap-around, and the lemma `ShortFmtChunkRejected` shows that such a chunk is rejected for files smaller than 4 GiB. `long` is taken to be 64 bits wide.
- Quality.ToUpper: upper-cases the ASCII letters only; `QString::toUpper` applies the full Unicode case mapping, which also maps other letters and can lengthen a string ("ß" becomes "SS").
- Quality.FromString: inherits the ASCII-only upper-casing, so a name such as "h\u0131gh" (dotless i), which Qt folds to "HIGH", reads as LOW here.
- Text.ToInt: a field with leading or trailing whitespace, which `QString::toInt` skips, is not a number here and reads as 0; so a face field that reaches the parser with a tab left in it ("\t2") keeps the previous attribute instead of reading index 2.
- Text.IsSpace: only the ASCII whitespace characters count as space; `QString::trimmed` also strips the other Unicode space characters (U+0085, U+00A0 and the separators), and Text.TrimLeft, Text.TrimRight and Text.Trim inherit this.
- Text.Trim: strips only the ASCII whitespace Text.IsSpace names, not the other Unicode spaces `QString::trimmed` strips.
- Vegetation.Vegetation.Grass: requires that a dry candidate always comes eventually, because the as-written search loop never ends otherwise (see the grass finding below); it promises nothing on a site that floods.
- SceneGraph.Graph.IntersectLine: a dummy's probe uses the world position `worldPosition()` returned at the moment it was asked, which the probe records, rather than one computed from the arena on entry; a landscape's cut is the one the terrain's line walk finds, which is not proved to be the nearest ground point along the ray.
- Splatter.SplatterSystem.constructor: requires at least one splatter slot, because `splat` writes the slot it picks, which is slot 0 of an empty vector when there are none.

## Findings

| source | as written | input that shows it | evidently intended | confidence | as-written member | corrected member |
|---|---|---|---|---|---|---|
| src/geometry/Terrain.cpp:247-250 | the cell is `QPoint(x, y)`, which truncates toward zero, so a map point with -1 < x < 0 passes the `pos.x() < 0` guard | map point (-0.5, 0.5) on any grid of at least 2x2 vertices: it is accepted as the lower triangle of cell (0, 0) | a point is on the terrain only when 0 <= x < W-1 and 0 <= y < H-1 (flooring) | high, not executed | TerrainQuery.TruncatingAcceptsPointOutsideGrid | TerrainQuery.GetTriangle |
| src/resource/Material.cpp:332-346 | the map guards compare the unsigned texture names with 0, which always holds, and the cube map's texture unit is assigned to `blobMapUniform` instead of `cubeMapUniform` | a shader with blob sampler 3 and cube sampler 4, blob map never set, cube map 7: unit 0 gets the never-set texture on sampler 3, then unit 1 gets texture 7, also on sampler 3 | maps that were never set are skipped and the cube map's unit goes to the cube sampler: one bind, unit 0 with texture 7 on sampler 4 | high, not executed | Material.CubeMapBoundThroughBlobUniform | Material.BindCallsNumbering |
| src/scene/object/Sky.cpp:358-360 | the specular clamp tests and assigns `diffuseFactor`, so the specular factor is never capped | specular day factor 3, maximum 2, sun height -1: the specular factor stays 3 | the specular factor is capped at its maximum, like the diffuse and ambient factors | high, not executed | Sky.SpecularFactorUncapped | Sky.LightFactors |
| src/scene/object/Teapot.cpp:102-108 | on a hit the teapot overwrites `*normal` with its own normal, dropping the normals the children added before | a contact whose earlier normal is non-zero: the result is the same as for a zero earlier normal | the teapot's normal is added to the accumulated normal, as the other collision overrides do | medium, not executed | Collision.TeapotForgetsEarlierNormals | Collision.TeapotCollide |
| src/scene/object/environment/Grass.cpp:46-57 | `tries` is never incremented, so the `tries > 1000` bailout can never fire | a site wholly under water (flat height 0, water level 1): the placement loop never ends | give up after 1000 tries, as the message says and as the forest does | high, not executed | Vegetation.GrassFloodedSiteLoopsForever | Vegetation.FindSpot |

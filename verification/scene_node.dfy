/**
 * The scene-graph node (AObject) as a value in an arena: nodes are named by ids, each with its
 * parent link, its ordered child list, its local position and rotation, its bounding-sphere
 * radius, the cached model matrix with its dirty flag, and which overriding class it is.
 * Everything here is pure; the class in module SceneGraph updates an arena in place with it.
 */
module SceneNode {
  import opened Math3D
  import opened Wrappers
  import opened Sequences
  import TerrainMap

  /** The overriding classes whose intersectLine or collideSphere differ from AObject's. */
  datatype Kind =
    | Plain
    | Landscape(terrain: TerrainMap.TerrainData)
    | Forest(instances: seq<Mat4>)
    | Teapot
    | Dummy

  datatype Node = Node(
    parent: Option<nat>,
    children: seq<nat>,
    position: Vec3,
    rotation: Quat,
    radius: real,
    model: Mat4,
    dirty: bool,
    kind: Kind)

  type Arena = map<nat, Node>

  /** Every id a node refers to, as parent or as child, is in the arena. */
  predicate Closed(nodes: Arena) {
    forall id {:trigger nodes[id]} :: id in nodes ==>
      (nodes[id].parent.Some? ==> nodes[id].parent.value in nodes)
      && (forall c :: c in nodes[id].children ==> c in nodes)
  }

  /** mapVector: the linear part of an instance matrix applied to a direction. */
  function MapVector(m: Mat4, v: Vec3): Vec3 {
    var h := Vec4(v.x, v.y, v.z, 0.0);
    Vec3(Dot4(m.r0, h), Dot4(m.r1, h), Dot4(m.r2, h))
  }

  /** A tree's capsule runs from 10 units below its instance origin to 60 above, in instance space. */
  function TreeBottom(m: Mat4): Vec3 {
    Add(Xyz(Col(m, 3)), MapVector(m, Vec3(0.0, -10.0, 0.0)))
  }

  function TreeTop(m: Mat4): Vec3 {
    Add(Xyz(Col(m, 3)), MapVector(m, Vec3(0.0, 60.0, 0.0)))
  }

  /**
   * What the overrides need of their data: a landscape's terrain is a well-formed grid of at
   * least 2x2 vertices, and no tree instance squashes its capsule axis to a point.
   */
  predicate KindValid(k: Kind) {
    match k
    case Landscape(t) => TerrainMap.Valid(t) && t.mapWidth >= 2 && t.mapHeight >= 2
    case Forest(instances) => forall i :: 0 <= i < |instances| ==> LengthSq(Sub(TreeTop(instances[i]), TreeBottom(instances[i]))) > 0.0
    case _ => true
  }

  predicate Sound(nodes: Arena) {
    Closed(nodes) && forall id :: id in nodes ==> KindValid(nodes[id].kind)
  }

  /**
   * Two arenas with the same nodes that differ at most in the matrix caches: the links, the
   * local transforms, the radii and the kinds agree.
   */
  predicate SameShape(a: Arena, b: Arena) {
    a.Keys == b.Keys && forall id :: id in a ==> b[id] == a[id].(model := b[id].model, dirty := b[id].dirty)
  }

  lemma SameShapeSound(a: Arena, b: Arena)
    requires Sound(a) && SameShape(a, b)
    ensures Sound(b)
  {
    forall id | id in b
      ensures (b[id].parent.Some? ==> b[id].parent.value in b) && KindValid(b[id].kind)
      ensures forall c :: c in b[id].children ==> c in b
    {
      assert b[id].parent == a[id].parent && b[id].children == a[id].children && b[id].kind == a[id].kind;
    }
  }

  lemma SameShapeTransitive(a: Arena, b: Arena, c: Arena)
    requires SameShape(a, b) && SameShape(b, c)
    ensures SameShape(a, c)
  {
  }

  // ---------------------------------------------------------------- construction and mutation

  /** A new node: no parent, no children, at the origin with the identity rotation, the given radius, and dirty. */
  function NewNode(radius: real, kind: Kind): (n: Node)
    ensures n.parent.None? && n.children == [] && n.position == Zero3 && n.rotation == IdentityQuat
    ensures n.radius == radius && n.dirty && n.kind == kind
  {
    Node(None, [], Zero3, IdentityQuat, radius, Identity, true, kind)
  }

  /** The position and rotation mutators. */
  datatype Mutation =
    | Move(distance: Vec3)
    | MoveX(dx: real)
    | MoveY(dy: real)
    | MoveZ(dz: real)
    | SetPosition(p: Vec3)
    | SetPositionX(x: real)
    | SetPositionY(y: real)
    | SetPositionZ(z: real)
    | SetRotation(q: Quat)

  /**
   * A mutator applied to a node: the move* ones shift the position by their offset, the
   * setPosition* ones replace the named coordinates, setRotation replaces the rotation; every
   * one marks the matrix dirty and leaves the links, the radius and the cache alone.
   */
  function Mutated(n: Node, m: Mutation): (r: Node)
    ensures r == n.(position := r.position, rotation := r.rotation, dirty := true)
    ensures m.SetRotation? ==> r.rotation == m.q && r.position == n.position
    ensures !m.SetRotation? ==> r.rotation == n.rotation
    ensures m.Move? ==> Sub(r.position, n.position) == m.distance
    ensures m.MoveX? ==> Sub(r.position, n.position) == Vec3(m.dx, 0.0, 0.0)
    ensures m.MoveY? ==> Sub(r.position, n.position) == Vec3(0.0, m.dy, 0.0)
    ensures m.MoveZ? ==> Sub(r.position, n.position) == Vec3(0.0, 0.0, m.dz)
    ensures m.SetPosition? ==> r.position == m.p
    ensures m.SetPositionX? ==> r.position == n.position.(x := m.x)
    ensures m.SetPositionY? ==> r.position == n.position.(y := m.y)
    ensures m.SetPositionZ? ==> r.position == n.position.(z := m.z)
  {
    var p := n.position;
    var r := match m
      case Move(d) => n.(position := Add(p, d))
      case MoveX(dx) => n.(position := p.(x := p.x + dx))
      case MoveY(dy) => n.(position := p.(y := p.y + dy))
      case MoveZ(dz) => n.(position := p.(z := p.z + dz))
      case SetPosition(q) => n.(position := q)
      case SetPositionX(x) => n.(position := p.(x := x))
      case SetPositionY(y) => n.(position := p.(y := y))
      case SetPositionZ(z) => n.(position := p.(z := z))
      case SetRotation(q) => n.(rotation := q);
    r.(dirty := true)
  }

  /** Two moves add up: moving by a and then by b is moving by a + b. */
  lemma MovesAdd(n: Node, a: Vec3, b: Vec3)
    ensures Mutated(Mutated(n, Move(a)), Move(b)).position == Mutated(n, Move(Add(a, b))).position
  {
    var p := n.position;
    assert Add(Add(p, a), b) == Add(p, Add(a, b));
  }

  /** left, up and direction: the local axes rotated by the local rotation. */
  function Left(n: Node): Vec3 { Rotate(n.rotation, Vec3(1.0, 0.0, 0.0)) }
  function Up(n: Node): Vec3 { Rotate(n.rotation, Vec3(0.0, 1.0, 0.0)) }
  function Direction(n: Node): Vec3 { Rotate(n.rotation, Vec3(0.0, 0.0, 1.0)) }

  /** The local axes read the rotation only: neither the position nor the matrix cache matters. */
  lemma AxesIgnoreCache(n: Node, position: Vec3, model: Mat4, dirty: bool)
    ensures var o := n.(position := position, model := model, dirty := dirty);
            Left(o) == Left(n) && Up(o) == Up(n) && Direction(o) == Direction(n)
  {
  }

  // ---------------------------------------------------------------- the matrix cache

  /** syncMatrix's product: the base (the parent's model matrix, or the identity) times T(position) times R(rotation). */
  function SyncProduct(base: Mat4, position: Vec3, rotation: Quat): Mat4 {
    Compose(Compose(base, Translation(position)), Rotation(rotation))
  }

  /** A root's product, T(position) times R(rotation). */
  function RootProduct(position: Vec3, rotation: Quat): Mat4 {
    Compose(Translation(position), Rotation(rotation))
  }

  /** setToIdentity, translate, rotate: the identity times T(position) R(rotation) is RootProduct. */
  lemma RootProductFromIdentity(position: Vec3, rotation: Quat)
    ensures SyncProduct(Identity, position, rotation) == RootProduct(position, rotation)
  {
    ComposeIdentity(Translation(position));
  }

  /** Whatever the rotation part, a product base T(t) R places the origin at t mapped by the base. */
  lemma OriginOfProduct(base: Mat4, t: Vec3, r: Mat4)
    requires Col(r, 3) == Vec4(0.0, 0.0, 0.0, 1.0)
    ensures Xyz(Col(Compose(Compose(base, Translation(t)), r), 3)) == MapPoint(base, t)
  {
    var m := Compose(base, Translation(t));
    assert Col(Compose(m, r), 3) == Col(m, 3);
  }

  lemma RotationColumn(q: Quat)
    ensures Col(Rotation(q), 3) == Vec4(0.0, 0.0, 0.0, 1.0)
  {
  }

  lemma RotationBottomRow(q: Quat)
    ensures Rotation(q).r3 == Vec4(0.0, 0.0, 0.0, 1.0)
  {
  }

  /** A synced matrix places the node's origin at its local position mapped by the base. */
  lemma SyncedOrigin(base: Mat4, position: Vec3, rotation: Quat)
    ensures Xyz(Col(SyncProduct(base, position, rotation), 3)) == MapPoint(base, position)
  {
    RotationColumn(rotation);
    OriginOfProduct(base, position, Rotation(rotation));
  }

  /** A root's synced matrix places its origin at its position. */
  lemma RootOrigin(position: Vec3, rotation: Quat)
    ensures Xyz(Col(RootProduct(position, rotation), 3)) == position
  {
    SyncedOrigin(Identity, position, rotation);
    MapIdentity(position);
    RootProductFromIdentity(position, rotation);
  }

  /** The identity is neutral on the left of a product. */
  lemma ComposeIdentity(m: Mat4)
    ensures Compose(Identity, m) == m
  {
    assert RowTimes(Identity.r0, m) == m.r0;
    assert RowTimes(Identity.r1, m) == m.r1;
    assert RowTimes(Identity.r2, m) == m.r2;
    assert RowTimes(Identity.r3, m) == m.r3;
  }

  /** A translation in front does not turn directions: the first three columns of T(t) R are R's. */
  lemma AxesOfProduct(t: Vec3, r: Mat4)
    requires r.r3.x == 0.0 && r.r3.y == 0.0 && r.r3.z == 0.0
    ensures Xyz(Col(Compose(Translation(t), r), 0)) == Xyz(Col(r, 0))
    ensures Xyz(Col(Compose(Translation(t), r), 1)) == Xyz(Col(r, 1))
    ensures Xyz(Col(Compose(Translation(t), r), 2)) == Xyz(Col(r, 2))
  {
  }

  /** The image of each unit axis is the matching column. */
  lemma ImageOfAxes(m: Mat4)
    ensures Xyz(Col(m, 0)) == Vec3(Dot4(m.r0, Vec4(1.0, 0.0, 0.0, 0.0)), Dot4(m.r1, Vec4(1.0, 0.0, 0.0, 0.0)), Dot4(m.r2, Vec4(1.0, 0.0, 0.0, 0.0)))
    ensures Xyz(Col(m, 1)) == Vec3(Dot4(m.r0, Vec4(0.0, 1.0, 0.0, 0.0)), Dot4(m.r1, Vec4(0.0, 1.0, 0.0, 0.0)), Dot4(m.r2, Vec4(0.0, 1.0, 0.0, 0.0)))
    ensures Xyz(Col(m, 2)) == Vec3(Dot4(m.r0, Vec4(0.0, 0.0, 1.0, 0.0)), Dot4(m.r1, Vec4(0.0, 0.0, 1.0, 0.0)), Dot4(m.r2, Vec4(0.0, 0.0, 1.0, 0.0)))
  {
  }

  /**
   * A root's world axes (worldLeft, worldUp, worldDirection: the first three columns of its synced
   * matrix) are its local axes (left, up, direction: the unit axes rotated by its rotation).
   */
  lemma RootAxes(position: Vec3, rotation: Quat)
    ensures Xyz(Col(RootProduct(position, rotation), 0)) == Rotate(rotation, Vec3(1.0, 0.0, 0.0))
    ensures Xyz(Col(RootProduct(position, rotation), 1)) == Rotate(rotation, Vec3(0.0, 1.0, 0.0))
    ensures Xyz(Col(RootProduct(position, rotation), 2)) == Rotate(rotation, Vec3(0.0, 0.0, 1.0))
  {
    RotationBottomRow(rotation);
    AxesOfProduct(position, Rotation(rotation));
    RotateIsColumn(rotation);
  }

  lemma RotateIsColumn(q: Quat)
    ensures Rotate(q, Vec3(1.0, 0.0, 0.0)) == Xyz(Col(Rotation(q), 0))
    ensures Rotate(q, Vec3(0.0, 1.0, 0.0)) == Xyz(Col(Rotation(q), 1))
    ensures Rotate(q, Vec3(0.0, 0.0, 1.0)) == Xyz(Col(Rotation(q), 2))
  {
    ImageOfAxes(Rotation(q));
  }

  /**
   * b is a with some matrix caches refreshed: the same shape, no node made dirty, and every
   * clean cache kept, except perhaps the one of `rewritten`.
   */
  ghost predicate Refreshes(a: Arena, b: Arena, rewritten: Option<nat>) {
    SameShape(a, b)
    && (forall k :: k in a && b[k].dirty ==> a[k].dirty)
    && (forall k :: k in a && !a[k].dirty && Some(k) != rewritten ==> b[k] == a[k])
  }

  lemma RefreshesTransitive(a: Arena, b: Arena, c: Arena, rewritten: Option<nat>)
    requires Refreshes(a, b, None) && Refreshes(b, c, rewritten)
    ensures Refreshes(a, c, rewritten)
  {
  }

  lemma SameShapeClosed(a: Arena, b: Arena)
    requires Closed(a) && SameShape(a, b)
    ensures Closed(b)
  {
    forall id | id in b
      ensures (b[id].parent.Some? ==> b[id].parent.value in b) && forall c :: c in b[id].children ==> c in b
    {
      assert b[id].parent == a[id].parent && b[id].children == a[id].children;
    }
  }

  /** Writing one node's cached matrix refreshes that node only. */
  lemma WriteModel(m: Arena, id: nat, model: Mat4)
    requires id in m
    ensures Refreshes(m, m[id := m[id].(model := model)], Some(id))
  {
    var r := m[id := m[id].(model := model)];
    assert forall k :: k in m && k != id ==> r[k] == m[k];
  }

  /** Marking a dirty node clean after its cache was rewritten refreshes the arena. */
  lemma MarkClean(nodes: Arena, s: Arena, id: nat)
    requires id in nodes && nodes[id].dirty && Refreshes(nodes, s, Some(id))
    ensures Refreshes(nodes, s[id := s[id].(dirty := false)], None)
  {
    var r := s[id := s[id].(dirty := false)];
    assert forall k :: k in nodes && k != id ==> r[k] == s[k];
  }

  /**
   * modelMatrix() of a node: validate it, then read its cache. The fuel bounds the walk up the
   * parent chain; with none left the cache is read as it stands.
   */
  function ModelMatrixOf(nodes: Arena, id: nat, fuel: nat): (r: (Arena, Mat4))
    requires Closed(nodes) && id in nodes
    ensures Refreshes(nodes, r.0, None)
    ensures r.1 == r.0[id].model
    ensures fuel > 0 ==> !r.0[id].dirty
    decreases fuel, 0
  {
    if fuel == 0 then (nodes, nodes[id].model)
    else
      var v := Validate(nodes, id, fuel - 1);
      (v, v[id].model)
  }

  /** modelMatrix() unfolded: with fuel left, the validated arena and its cache. */
  lemma ModelMatrixOfValidated(nodes: Arena, id: nat, rest: nat, v: Arena)
    requires Closed(nodes) && id in nodes && v == Validate(nodes, id, rest)
    ensures ModelMatrixOf(nodes, id, rest + 1) == (v, v[id].model)
  {
  }

  /**
   * syncMatrix: the parent's modelMatrix() times T(position) times R(rotation), or for a root the
   * identity times T(position) R(rotation), which is RootProduct; stored in the cache whether or
   * not it was dirty, with the dirty flag not touched.
   */
  function Synced(nodes: Arena, id: nat, fuel: nat): (r: Arena)
    requires Closed(nodes) && id in nodes
    ensures Refreshes(nodes, r, Some(id))
    ensures nodes[id].parent.None? ==> r[id].model == RootProduct(nodes[id].position, nodes[id].rotation)
    ensures nodes[id].parent.Some? ==>
              r[id].model == SyncProduct(ModelMatrixOf(nodes, nodes[id].parent.value, fuel).1, nodes[id].position, nodes[id].rotation)
    decreases fuel, 1
  {
    match nodes[id].parent
    case None =>
      var model := RootProduct(nodes[id].position, nodes[id].rotation);
      WriteModel(nodes, id, model);
      nodes[id := nodes[id].(model := model)]
    case Some(p) =>
      var (m, base) := ModelMatrixOf(nodes, p, fuel);
      var model := SyncProduct(base, nodes[id].position, nodes[id].rotation);
      WriteModel(m, id, model);
      RefreshesTransitive(nodes, m, m[id := m[id].(model := model)], Some(id));
      m[id := m[id].(model := model)]
  }

  /** Synced of a root: only its cache is rewritten, to T(position) R(rotation). */
  lemma SyncedRoot(nodes: Arena, id: nat, fuel: nat)
    requires Closed(nodes) && id in nodes && nodes[id].parent.None?
    ensures Synced(nodes, id, fuel) == nodes[id := nodes[id].(model := RootProduct(nodes[id].position, nodes[id].rotation))]
  {
  }

  /** Synced of a child: the arena the parent's modelMatrix() leaves, with only id's cache rewritten. */
  lemma SyncedChild(nodes: Arena, id: nat, fuel: nat, m: Arena, base: Mat4)
    requires Closed(nodes) && id in nodes && nodes[id].parent.Some?
    requires (m, base) == ModelMatrixOf(nodes, nodes[id].parent.value, fuel)
    ensures Synced(nodes, id, fuel) == m[id := m[id].(model := SyncProduct(base, nodes[id].position, nodes[id].rotation))]
  {
  }

  /**
   * validateMatrix: a dirty node is synced and marked clean; a clean node is left alone, and no
   * clean node anywhere is touched.
   */
  function Validate(nodes: Arena, id: nat, fuel: nat): (r: Arena)
    requires Closed(nodes) && id in nodes
    ensures Refreshes(nodes, r, None)
    ensures !r[id].dirty
    ensures !nodes[id].dirty ==> r == nodes
    decreases fuel, 2
  {
    if !nodes[id].dirty then nodes
    else
      var s := Synced(nodes, id, fuel);
      MarkClean(nodes, s, id);
      s[id := s[id].(dirty := false)]
  }

  /** A dirty node's validated cache is the one syncMatrix computes. */
  lemma ValidateSyncs(nodes: Arena, id: nat, fuel: nat)
    requires Closed(nodes) && id in nodes && nodes[id].dirty
    ensures Validate(nodes, id, fuel)[id].model == Synced(nodes, id, fuel)[id].model
  {
  }

  /** Validating twice is validating once: the second call finds the node clean. */
  lemma ValidateIdempotent(nodes: Arena, id: nat, fuel: nat, fuel2: nat)
    requires Closed(nodes) && id in nodes
    ensures Closed(Validate(nodes, id, fuel))
    ensures Validate(Validate(nodes, id, fuel), id, fuel2) == Validate(nodes, id, fuel)
  {
    SameShapeClosed(nodes, Validate(nodes, id, fuel));
  }

  /** worldPosition(): the origin of the validated model matrix. */
  function WorldPosition(nodes: Arena, id: nat, fuel: nat): Vec3
    requires Closed(nodes) && id in nodes
  {
    Xyz(Col(ModelMatrixOf(nodes, id, fuel).1, 3))
  }

  lemma ModelOfDirty(nodes: Arena, id: nat, fuel: nat)
    requires Closed(nodes) && id in nodes && fuel > 0 && nodes[id].dirty
    ensures ModelMatrixOf(nodes, id, fuel).1 == Synced(nodes, id, fuel - 1)[id].model
  {
    var v := Validate(nodes, id, fuel - 1);
    assert ModelMatrixOf(nodes, id, fuel) == (v, v[id].model);
    ValidateSyncs(nodes, id, fuel - 1);
  }

  lemma RootModel(nodes: Arena, id: nat, fuel: nat)
    requires Closed(nodes) && id in nodes && fuel > 0
    requires nodes[id].parent.None? && nodes[id].dirty
    ensures ModelMatrixOf(nodes, id, fuel).1 == RootProduct(nodes[id].position, nodes[id].rotation)
  {
    ModelOfDirty(nodes, id, fuel);
  }

  /** A dirty root's world position is its position. */
  lemma RootWorldPosition(nodes: Arena, id: nat, fuel: nat)
    requires Closed(nodes) && id in nodes && fuel > 0
    requires nodes[id].parent.None? && nodes[id].dirty
    ensures WorldPosition(nodes, id, fuel) == nodes[id].position
  {
    RootModel(nodes, id, fuel);
    RootOrigin(nodes[id].position, nodes[id].rotation);
  }

  /** A dirty child's world position is its position mapped by its parent's model matrix. */
  lemma ChildWorldPosition(nodes: Arena, id: nat, fuel: nat)
    requires Closed(nodes) && id in nodes && fuel > 0
    requires nodes[id].parent.Some? && nodes[id].dirty
    ensures WorldPosition(nodes, id, fuel)
            == MapPoint(ModelMatrixOf(nodes, nodes[id].parent.value, fuel - 1).1, nodes[id].position)
  {
    ModelOfDirty(nodes, id, fuel);
    SyncedOrigin(ModelMatrixOf(nodes, nodes[id].parent.value, fuel - 1).1, nodes[id].position, nodes[id].rotation);
  }

  /**
   * Mutating a parent does not dirty its children: a clean child keeps reading its old cache,
   * stale until an update pass syncs it again.
   */
  lemma ParentMutationLeavesChildStale(nodes: Arena, p: nat, c: nat, m: Mutation, fuel: nat)
    requires Closed(nodes) && p in nodes && c in nodes && p != c && !nodes[c].dirty
    ensures Closed(nodes[p := Mutated(nodes[p], m)])
    ensures ModelMatrixOf(nodes[p := Mutated(nodes[p], m)], c, fuel).1 == nodes[c].model
  {
    var after := nodes[p := Mutated(nodes[p], m)];
    assert Closed(after) by {
      forall k | k in after
        ensures (after[k].parent.Some? ==> after[k].parent.value in after) && forall x :: x in after[k].children ==> x in after
      {
        assert after[k].parent == nodes[k].parent && after[k].children == nodes[k].children;
      }
    }
  }

  // ---------------------------------------------------------------- add and remove

  /** The arena with c's parent link set to parent and p's child list set to children. */
  function Relinked(nodes: Arena, c: nat, parent: Option<nat>, p: nat, children: seq<nat>): Arena {
    map k | k in nodes :: nodes[k].(parent := if k == c then parent else nodes[k].parent,
                                    children := if k == p then children else nodes[k].children)
  }

  /** The two field writes that make up a relink give the same arena in either order. */
  lemma RelinkedInTwoSteps(nodes: Arena, c: nat, parent: Option<nat>, p: nat, children: seq<nat>)
    requires c in nodes && p in nodes
    ensures var cut := nodes[c := nodes[c].(parent := parent)];
            Relinked(nodes, c, parent, p, children) == cut[p := cut[p].(children := children)]
    ensures var appended := nodes[p := nodes[p].(children := children)];
            Relinked(nodes, c, parent, p, children) == appended[c := appended[c].(parent := parent)]
  {
    var r := Relinked(nodes, c, parent, p, children);
    var cut := nodes[c := nodes[c].(parent := parent)];
    var appended := nodes[p := nodes[p].(children := children)];
    assert r == cut[p := cut[p].(children := children)];
    assert r == appended[c := appended[c].(parent := parent)];
  }

  /** remove(c) called on p: c loses its parent link even if p does not hold it, and p's list loses its first c. */
  function Removed(nodes: Arena, p: nat, c: nat): (r: Arena)
    requires p in nodes && c in nodes
    ensures r.Keys == nodes.Keys
    ensures r[c].parent.None?
    ensures r[p].children == RemoveFirst(nodes[p].children, c)
    ensures forall k :: k in nodes && k != p && k != c ==> r[k] == nodes[k]
    ensures forall k :: k in nodes ==> r[k] == nodes[k].(parent := r[k].parent, children := r[k].children)
  {
    Relinked(nodes, c, None, p, RemoveFirst(nodes[p].children, c))
  }


  /**
   * add(c) called on p: c is first removed from the parent it had, then appended to p's list,
   * and its parent becomes p. Nothing stops p from being c or one of c's descendants.
   */
  function Added(nodes: Arena, p: nat, c: nat): (r: Arena)
    requires Closed(nodes) && p in nodes && c in nodes
    ensures Closed(r) && r.Keys == nodes.Keys
    ensures r[c].parent == Some(p)
    ensures r[p].children == (if nodes[c].parent == Some(p) then RemoveFirst(nodes[p].children, c) else nodes[p].children) + [c]
    ensures nodes[c].parent.Some? && nodes[c].parent.value != p ==>
              r[nodes[c].parent.value].children == RemoveFirst(nodes[nodes[c].parent.value].children, c)
    ensures forall k :: k in nodes && k != p && k != c && Some(k) != nodes[c].parent ==> r[k] == nodes[k]
    ensures forall k :: k in nodes ==> r[k] == nodes[k].(parent := r[k].parent, children := r[k].children)
  {
    Attached(Detached(nodes, c), p, c)
  }

  /** The first half of add: c leaves its old parent, if it has one. */
  function Detached(nodes: Arena, c: nat): (r: Arena)
    requires Closed(nodes) && c in nodes
    ensures Closed(r) && r.Keys == nodes.Keys && r[c].parent.None?
    ensures nodes[c].parent.Some? ==>
              r[nodes[c].parent.value].children == RemoveFirst(nodes[nodes[c].parent.value].children, c)
    ensures forall k :: k in nodes && k != c && Some(k) != nodes[c].parent ==> r[k] == nodes[k]
    ensures forall k :: k in nodes ==> r[k] == nodes[k].(parent := r[k].parent, children := r[k].children)
  {
    if nodes[c].parent.None? then nodes
    else
      var r := Removed(nodes, nodes[c].parent.value, c);
      assert forall k :: k in r ==> forall x :: x in r[k].children ==> x in nodes[k].children;
      r
  }

  /** The second half of add: c goes to the end of p's list and p becomes its parent. */
  function Attached(nodes: Arena, p: nat, c: nat): (r: Arena)
    requires Closed(nodes) && p in nodes && c in nodes
    ensures Closed(r) && r.Keys == nodes.Keys && r[c].parent == Some(p)
    ensures r[p].children == nodes[p].children + [c]
    ensures forall k :: k in nodes && k != p && k != c ==> r[k] == nodes[k]
    ensures forall k :: k in nodes ==> r[k] == nodes[k].(parent := r[k].parent, children := r[k].children)
  {
    Relinked(nodes, c, Some(p), p, nodes[p].children + [c])
  }


  /** Adding a node to the parent that already holds it once moves it to the end of the list. */
  lemma ReAddMovesToEnd(nodes: Arena, p: nat, c: nat, i: nat)
    requires Closed(nodes) && p in nodes && c in nodes && nodes[c].parent == Some(p)
    requires i < |nodes[p].children| && nodes[p].children[i] == c && c !in nodes[p].children[..i]
    ensures var s := nodes[p].children;
            Added(nodes, p, c)[p].children == s[..i] + s[i + 1..] + [c]
  {
    RemoveFirstKeepsOrder(nodes[p].children, c, i);
  }

  /** Nothing checks for cycles: adding a root to its own child makes each the other's parent. */
  lemma AddCanCloseACycle(a: Node, b: Node)
    requires a.parent.None? && a.children == [1] && b.parent == Some(0) && b.children == []
    ensures var r := Added(map[0 := a, 1 := b], 1, 0);
            r[0].parent == Some(1) && r[1].parent == Some(0) && r[1].children == [0] && r[0].children == [1]
  {
    var nodes := map[0 := a, 1 := b];
    assert Closed(nodes);
  }

  // ---------------------------------------------------------------- the four passes

  datatype Pass = UpdatePass | Update2Pass | DrawPass | Draw2Pass

  /** What a pass does, in order: syncMatrix, and the self and self-post hooks of each node it reaches. */
  datatype Event = SyncMatrix(node: nat) | SelfHook(pass: Pass, node: nat) | PostHook(pass: Pass, node: nat)

  /**
   * Whether a pass running on `parent` goes into its child c. update goes in only when the
   * opaque guard `!isValid()` holds of the child pointer, update2 always, and draw and draw2
   * when the child's radius is at most FLT_EPSILON or the parent's frustum, built from its
   * modelview during draw and kept for draw2, accepts the child's local position and radius.
   */
  predicate Descends(pass: Pass, nodes: Arena, parent: nat, c: nat, guard: nat -> bool, accepts: (nat, Vec3, real) -> bool)
    requires c in nodes
  {
    match pass
    case UpdatePass => guard(c)
    case Update2Pass => true
    case _ => nodes[c].radius <= FltEpsilon || accepts(parent, nodes[c].position, nodes[c].radius)
  }

  /**
   * The events of a pass run on node id: (for update, syncMatrix), the self hook, the passes
   * of the children it goes into in list order, and the self-post hook. The fuel bounds the
   * depth, which a finite tree never reaches.
   */
  function Trace(pass: Pass, nodes: Arena, id: nat, guard: nat -> bool, accepts: (nat, Vec3, real) -> bool, fuel: nat): seq<Event>
    requires Closed(nodes) && id in nodes
    decreases fuel, 1, 0
  {
    (if pass == UpdatePass then [SyncMatrix(id)] else []) + [SelfHook(pass, id)]
    + (if fuel == 0 then [] else ChildTraces(pass, nodes, id, nodes[id].children, guard, accepts, fuel - 1))
    + [PostHook(pass, id)]
  }

  function ChildTraces(pass: Pass, nodes: Arena, parent: nat, cs: seq<nat>, guard: nat -> bool,
                       accepts: (nat, Vec3, real) -> bool, fuel: nat): seq<Event>
    requires Closed(nodes) && forall c :: c in cs ==> c in nodes
    decreases fuel, 2, |cs|
  {
    if |cs| == 0 then []
    else
      var c := cs[|cs| - 1];
      ChildTraces(pass, nodes, parent, cs[..|cs| - 1], guard, accepts, fuel)
      + (if Descends(pass, nodes, parent, c, guard, accepts) then Trace(pass, nodes, c, guard, accepts, fuel) else [])
  }

  /** A pass with depth left: the node's own events around its children's passes. */
  lemma TraceUnfold(pass: Pass, nodes: Arena, id: nat, guard: nat -> bool, accepts: (nat, Vec3, real) -> bool, rest: nat)
    requires Closed(nodes) && id in nodes
    ensures Trace(pass, nodes, id, guard, accepts, rest + 1)
            == (if pass == UpdatePass then [SyncMatrix(id)] else []) + [SelfHook(pass, id)]
               + ChildTraces(pass, nodes, id, nodes[id].children, guard, accepts, rest) + [PostHook(pass, id)]
  {
  }

  /** One more child: its pass, if the parent descends into it, follows the earlier ones. */
  lemma ChildTracesStep(pass: Pass, nodes: Arena, parent: nat, cs: seq<nat>, i: nat, guard: nat -> bool,
                        accepts: (nat, Vec3, real) -> bool, fuel: nat)
    requires Closed(nodes) && (forall c :: c in cs ==> c in nodes) && i < |cs|
    ensures ChildTraces(pass, nodes, parent, cs[..i + 1], guard, accepts, fuel)
            == ChildTraces(pass, nodes, parent, cs[..i], guard, accepts, fuel)
               + (if Descends(pass, nodes, parent, cs[i], guard, accepts) then Trace(pass, nodes, cs[i], guard, accepts, fuel) else [])
  {
    assert cs[..i + 1][..i] == cs[..i];
  }

  /** Whether a pass descends depends on the links, positions and radii only. */
  lemma DescendsShapeOnly(pass: Pass, a: Arena, b: Arena, parent: nat, c: nat, guard: nat -> bool,
                          accepts: (nat, Vec3, real) -> bool)
    requires SameShape(a, b) && c in a
    ensures Descends(pass, a, parent, c, guard, accepts) == Descends(pass, b, parent, c, guard, accepts)
  {
    assert b[c].radius == a[c].radius && b[c].position == a[c].position;
  }

  /** A pass reads only the links, positions and radii: the matrix caches do not change what it visits. */
  lemma {:induction false} TraceShapeOnly(pass: Pass, a: Arena, b: Arena, id: nat, guard: nat -> bool,
                                          accepts: (nat, Vec3, real) -> bool, fuel: nat)
    requires Closed(a) && Closed(b) && SameShape(a, b) && id in a
    ensures Trace(pass, a, id, guard, accepts, fuel) == Trace(pass, b, id, guard, accepts, fuel)
    decreases fuel, 1, 0
  {
    if fuel > 0 {
      var rest: nat := fuel - 1;
      ChildTracesShapeOnly(pass, a, b, id, a[id].children, guard, accepts, rest);
      ShapeOnlyNode(pass, a, b, id, guard, accepts, rest);
    }
  }

  /** One level of TraceShapeOnly, given the children. */
  lemma ShapeOnlyNode(pass: Pass, a: Arena, b: Arena, id: nat, guard: nat -> bool,
                      accepts: (nat, Vec3, real) -> bool, rest: nat)
    requires Closed(a) && Closed(b) && SameShape(a, b) && id in a
    requires ChildTraces(pass, a, id, a[id].children, guard, accepts, rest)
             == ChildTraces(pass, b, id, a[id].children, guard, accepts, rest)
    ensures Trace(pass, a, id, guard, accepts, rest + 1) == Trace(pass, b, id, guard, accepts, rest + 1)
  {
    TraceUnfold(pass, a, id, guard, accepts, rest);
    TraceUnfold(pass, b, id, guard, accepts, rest);
    assert b[id].children == a[id].children;
  }

  lemma {:induction false} ChildTracesShapeOnly(pass: Pass, a: Arena, b: Arena, parent: nat, cs: seq<nat>,
                                                guard: nat -> bool, accepts: (nat, Vec3, real) -> bool, fuel: nat)
    requires Closed(a) && Closed(b) && SameShape(a, b) && forall c :: c in cs ==> c in a
    ensures ChildTraces(pass, a, parent, cs, guard, accepts, fuel) == ChildTraces(pass, b, parent, cs, guard, accepts, fuel)
    decreases fuel, 2, |cs|
  {
    if |cs| > 0 {
      var c := cs[|cs| - 1];
      ChildTracesShapeOnly(pass, a, b, parent, cs[..|cs| - 1], guard, accepts, fuel);
      TraceShapeOnly(pass, a, b, c, guard, accepts, fuel);
    }
  }

  /** Every self hook a trace holds is matched by as many self-post hooks of the same node and pass. */
  ghost predicate Balanced(t: seq<Event>) {
    forall p, x :: multiset(t)[SelfHook(p, x)] == multiset(t)[PostHook(p, x)]
  }

  lemma BalancedJoin(a: seq<Event>, b: seq<Event>)
    requires Balanced(a) && Balanced(b)
    ensures Balanced(a + b)
  {
    assert multiset(a + b) == multiset(a) + multiset(b);
  }

  /** A self hook and its self-post hook around a balanced trace keep it balanced. */
  lemma BalancedWrap(pre: seq<Event>, inner: seq<Event>, post: seq<Event>)
    requires Balanced(inner) && Balanced(pre + post)
    ensures Balanced(pre + inner + post)
  {
    assert multiset(pre + inner + post) == multiset(pre + post) + multiset(inner);
  }

  lemma {:induction false} TraceBalanced(pass: Pass, nodes: Arena, id: nat, guard: nat -> bool,
                                         accepts: (nat, Vec3, real) -> bool, fuel: nat)
    requires Closed(nodes) && id in nodes
    ensures Balanced(Trace(pass, nodes, id, guard, accepts, fuel))
    decreases fuel, 1, 1
  {
    if fuel == 0 {
      HooksKeepBalance(pass, id, []);
    } else {
      BalancedLevel(pass, nodes, id, guard, accepts, fuel);
    }
  }

  /** One level of TraceBalanced, by induction on the children. */
  lemma {:induction false} BalancedLevel(pass: Pass, nodes: Arena, id: nat, guard: nat -> bool,
                                         accepts: (nat, Vec3, real) -> bool, fuel: nat)
    requires Closed(nodes) && id in nodes && fuel > 0
    ensures Balanced(Trace(pass, nodes, id, guard, accepts, fuel))
    decreases fuel, 1, 0
  {
    var rest: nat := fuel - 1;
    ChildTracesBalanced(pass, nodes, id, nodes[id].children, guard, accepts, rest);
    BalancedNode(pass, nodes, id, guard, accepts, rest);
  }

  /** One level of TraceBalanced, given the children. */
  lemma BalancedNode(pass: Pass, nodes: Arena, id: nat, guard: nat -> bool, accepts: (nat, Vec3, real) -> bool, rest: nat)
    requires Closed(nodes) && id in nodes
    requires Balanced(ChildTraces(pass, nodes, id, nodes[id].children, guard, accepts, rest))
    ensures Balanced(Trace(pass, nodes, id, guard, accepts, rest + 1))
  {
    TraceUnfold(pass, nodes, id, guard, accepts, rest);
    HooksKeepBalance(pass, id, ChildTraces(pass, nodes, id, nodes[id].children, guard, accepts, rest));
  }

  /** A node's own events around a balanced trace keep it balanced. */
  lemma HooksKeepBalance(pass: Pass, id: nat, inner: seq<Event>)
    requires Balanced(inner)
    ensures Balanced((if pass == UpdatePass then [SyncMatrix(id)] else []) + [SelfHook(pass, id)] + inner + [PostHook(pass, id)])
  {
    var pre := (if pass == UpdatePass then [SyncMatrix(id)] else []) + [SelfHook(pass, id)];
    var post := [PostHook(pass, id)];
    assert Balanced(pre + post) by {
      var m := multiset(pre + post);
      forall p, x ensures m[SelfHook(p, x)] == m[PostHook(p, x)] {
        if p == pass && x == id {
          assert m[SelfHook(p, x)] == 1 == m[PostHook(p, x)];
        } else {
          assert m[SelfHook(p, x)] == 0 == m[PostHook(p, x)];
        }
      }
    }
    BalancedWrap(pre, inner, post);
  }

  lemma {:induction false} ChildTracesBalanced(pass: Pass, nodes: Arena, parent: nat, cs: seq<nat>, guard: nat -> bool,
                                               accepts: (nat, Vec3, real) -> bool, fuel: nat)
    requires Closed(nodes) && forall c :: c in cs ==> c in nodes
    ensures Balanced(ChildTraces(pass, nodes, parent, cs, guard, accepts, fuel))
    decreases fuel, 2, |cs|
  {
    if |cs| > 0 {
      var c := cs[|cs| - 1];
      ChildTracesBalanced(pass, nodes, parent, cs[..|cs| - 1], guard, accepts, fuel);
      TraceBalanced(pass, nodes, c, guard, accepts, fuel);
      var sub := if Descends(pass, nodes, parent, c, guard, accepts) then Trace(pass, nodes, c, guard, accepts, fuel) else [];
      assert Balanced(sub);
      BalancedJoin(ChildTraces(pass, nodes, parent, cs[..|cs| - 1], guard, accepts, fuel), sub);
    }
  }

  /** An event with its pass renamed; a syncMatrix has none. */
  function RelabelEvent(e: Event, pass: Pass): Event {
    match e
    case SyncMatrix(x) => SyncMatrix(x)
    case SelfHook(_, x) => SelfHook(pass, x)
    case PostHook(_, x) => PostHook(pass, x)
  }

  /** The same events with their pass renamed. */
  function Relabel(t: seq<Event>, pass: Pass): (r: seq<Event>)
    ensures |r| == |t| && forall i {:trigger r[i]} :: 0 <= i < |t| ==> r[i] == RelabelEvent(t[i], pass)
  {
    seq(|t|, i requires 0 <= i < |t| => RelabelEvent(t[i], pass))
  }

  lemma RelabelAppend(a: seq<Event>, b: seq<Event>, pass: Pass)
    ensures Relabel(a + b, pass) == Relabel(a, pass) + Relabel(b, pass)
  {
    assert forall i :: 0 <= i < |b| ==> (a + b)[|a| + i] == b[i];
  }

  /** draw2 reuses draw's culling decisions, so it visits the same nodes in the same order. */
  lemma {:induction false} Draw2MirrorsDraw(nodes: Arena, id: nat, guard: nat -> bool, accepts: (nat, Vec3, real) -> bool, fuel: nat)
    requires Closed(nodes) && id in nodes
    ensures Trace(Draw2Pass, nodes, id, guard, accepts, fuel) == Relabel(Trace(DrawPass, nodes, id, guard, accepts, fuel), Draw2Pass)
    decreases fuel, 1, 0
  {
    if fuel == 0 {
      assert Relabel([], Draw2Pass) == [];
      DrawWrap(id, [], []);
    } else {
      var rest: nat := fuel - 1;
      Draw2ChildrenMirrorDraw(nodes, id, nodes[id].children, guard, accepts, rest);
      DrawWrap(id, ChildTraces(DrawPass, nodes, id, nodes[id].children, guard, accepts, rest),
               ChildTraces(Draw2Pass, nodes, id, nodes[id].children, guard, accepts, rest));
    }
  }

  /** The draw and draw2 events of one node around relabelled children's events. */
  lemma DrawWrap(id: nat, inner: seq<Event>, inner2: seq<Event>)
    requires inner2 == Relabel(inner, Draw2Pass)
    ensures [] + [SelfHook(Draw2Pass, id)] + inner2 + [PostHook(Draw2Pass, id)]
            == Relabel([] + [SelfHook(DrawPass, id)] + inner + [PostHook(DrawPass, id)], Draw2Pass)
  {
    assert [] + [SelfHook(DrawPass, id)] == [SelfHook(DrawPass, id)];
    assert [] + [SelfHook(Draw2Pass, id)] == [SelfHook(Draw2Pass, id)];
    RelabelAppend([SelfHook(DrawPass, id)], inner, Draw2Pass);
    RelabelAppend([SelfHook(DrawPass, id)] + inner, [PostHook(DrawPass, id)], Draw2Pass);
    assert Relabel([SelfHook(DrawPass, id)], Draw2Pass) == [SelfHook(Draw2Pass, id)];
    assert Relabel([PostHook(DrawPass, id)], Draw2Pass) == [PostHook(Draw2Pass, id)];
  }

  lemma {:induction false} Draw2ChildrenMirrorDraw(nodes: Arena, parent: nat, cs: seq<nat>, guard: nat -> bool,
                                                   accepts: (nat, Vec3, real) -> bool, fuel: nat)
    requires Closed(nodes) && forall c :: c in cs ==> c in nodes
    ensures ChildTraces(Draw2Pass, nodes, parent, cs, guard, accepts, fuel)
            == Relabel(ChildTraces(DrawPass, nodes, parent, cs, guard, accepts, fuel), Draw2Pass)
    decreases fuel, 2, |cs|
  {
    if |cs| > 0 {
      var c := cs[|cs| - 1];
      Draw2ChildrenMirrorDraw(nodes, parent, cs[..|cs| - 1], guard, accepts, fuel);
      Draw2MirrorsDraw(nodes, c, guard, accepts, fuel);
      var sub := if Descends(DrawPass, nodes, parent, c, guard, accepts) then Trace(DrawPass, nodes, c, guard, accepts, fuel) else [];
      RelabelAppend(ChildTraces(DrawPass, nodes, parent, cs[..|cs| - 1], guard, accepts, fuel), sub, Draw2Pass);
    }
  }

  /** A trace without its syncMatrix events. */
  function Unsynced(t: seq<Event>): (r: seq<Event>)
    ensures |r| <= |t|
  {
    if |t| == 0 then []
    else Unsynced(t[..|t| - 1]) + (if t[|t| - 1].SyncMatrix? then [] else [t[|t| - 1]])
  }

  lemma {:induction false} UnsyncedAppend(a: seq<Event>, b: seq<Event>)
    ensures Unsynced(a + b) == Unsynced(a) + Unsynced(b)
    decreases |b|
  {
    if |b| > 0 {
      var ab := a + b;
      assert ab[..|ab| - 1] == a + b[..|b| - 1];
      assert ab[|ab| - 1] == b[|b| - 1];
      var last := if b[|b| - 1].SyncMatrix? then [] else [b[|b| - 1]];
      UnsyncedAppend(a, b[..|b| - 1]);
      assert Unsynced(ab) == Unsynced(a + b[..|b| - 1]) + last;
      assert Unsynced(b) == Unsynced(b[..|b| - 1]) + last;
      assert Unsynced(a) + Unsynced(b) == (Unsynced(a) + Unsynced(b[..|b| - 1])) + last;
    } else {
      assert a + b == a;
    }
  }

  /** The update2 pass of node id is its update pass, relabelled and without the syncs. */
  ghost predicate Unguarded(nodes: Arena, id: nat, guard: nat -> bool, accepts: (nat, Vec3, real) -> bool, fuel: nat)
  {
    Closed(nodes) && id in nodes
    && Trace(Update2Pass, nodes, id, guard, accepts, fuel)
    == Relabel(Unsynced(Trace(UpdatePass, nodes, id, guard, accepts, fuel)), Update2Pass)
  }

  /** The update2 passes of the children are their update passes, relabelled and without the syncs. */
  ghost predicate ChildrenUnguarded(nodes: Arena, parent: nat, cs: seq<nat>, guard: nat -> bool,
                                    accepts: (nat, Vec3, real) -> bool, fuel: nat)
  {
    Closed(nodes) && (forall c :: c in cs ==> c in nodes)
    && ChildTraces(Update2Pass, nodes, parent, cs, guard, accepts, fuel)
    == Relabel(Unsynced(ChildTraces(UpdatePass, nodes, parent, cs, guard, accepts, fuel)), Update2Pass)
  }

  /**
   * update2 has update's shape without the sync and without the guard: when the guard lets
   * every child through, the two passes reach the same nodes in the same order.
   */
  lemma {:induction false} Update2IsUnguardedUpdate(nodes: Arena, id: nat, guard: nat -> bool, accepts: (nat, Vec3, real) -> bool, fuel: nat)
    requires Closed(nodes) && id in nodes && forall c :: guard(c)
    ensures Unguarded(nodes, id, guard, accepts, fuel)
    decreases fuel, 1, 1
  {
    if fuel == 0 {
      Update2Leaf(nodes, id, guard, accepts);
    } else {
      Update2Level(nodes, id, guard, accepts, fuel);
    }
  }

  /** One level of Update2IsUnguardedUpdate, by induction on the children. */
  lemma {:induction false} Update2Level(nodes: Arena, id: nat, guard: nat -> bool, accepts: (nat, Vec3, real) -> bool, fuel: nat)
    requires Closed(nodes) && id in nodes && fuel > 0 && forall c :: guard(c)
    ensures Unguarded(nodes, id, guard, accepts, fuel)
    decreases fuel, 1, 0
  {
    var rest: nat := fuel - 1;
    Update2ChildrenAreUnguarded(nodes, id, nodes[id].children, guard, accepts, rest);
    Update2Node(nodes, id, guard, accepts, rest);
  }

  /** One level of Update2IsUnguardedUpdate, given the children. */
  lemma Update2Node(nodes: Arena, id: nat, guard: nat -> bool, accepts: (nat, Vec3, real) -> bool, rest: nat)
    requires Closed(nodes) && id in nodes
    requires ChildrenUnguarded(nodes, id, nodes[id].children, guard, accepts, rest)
    ensures Unguarded(nodes, id, guard, accepts, rest + 1)
  {
    var inner := ChildTraces(UpdatePass, nodes, id, nodes[id].children, guard, accepts, rest);
    var inner2 := ChildTraces(Update2Pass, nodes, id, nodes[id].children, guard, accepts, rest);
    TraceUnfold(UpdatePass, nodes, id, guard, accepts, rest);
    TraceUnfold(Update2Pass, nodes, id, guard, accepts, rest);
    UpdateWrap(id, inner, inner2);
  }

  /** Without depth left, update2 holds the self hooks of update. */
  lemma Update2Leaf(nodes: Arena, id: nat, guard: nat -> bool, accepts: (nat, Vec3, real) -> bool)
    requires Closed(nodes) && id in nodes
    ensures Unguarded(nodes, id, guard, accepts, 0)
  {
    assert Unsynced([]) == [];
    assert Relabel([], Update2Pass) == [];
    UpdateWrap(id, [], []);
  }

  /** The update and update2 events of one node around the children's events. */
  lemma UpdateWrap(id: nat, inner: seq<Event>, inner2: seq<Event>)
    requires inner2 == Relabel(Unsynced(inner), Update2Pass)
    ensures [] + [SelfHook(Update2Pass, id)] + inner2 + [PostHook(Update2Pass, id)]
            == Relabel(Unsynced([SyncMatrix(id)] + [SelfHook(UpdatePass, id)] + inner + [PostHook(UpdatePass, id)]), Update2Pass)
  {
    assert [] + [SelfHook(Update2Pass, id)] == [SelfHook(Update2Pass, id)];
    assert [SyncMatrix(id)] + [SelfHook(UpdatePass, id)] == [SyncMatrix(id), SelfHook(UpdatePass, id)];
    UnsyncedWrap(id, inner);
    RelabelWrap(id, Unsynced(inner));
  }

  lemma UnsyncedWrap(id: nat, inner: seq<Event>)
    ensures Unsynced([SyncMatrix(id), SelfHook(UpdatePass, id)] + inner + [PostHook(UpdatePass, id)])
            == [SelfHook(UpdatePass, id)] + Unsynced(inner) + [PostHook(UpdatePass, id)]
  {
    UnsyncedAppend([SyncMatrix(id), SelfHook(UpdatePass, id)] + inner, [PostHook(UpdatePass, id)]);
    UnsyncedAppend([SyncMatrix(id), SelfHook(UpdatePass, id)], inner);
    assert Unsynced([SyncMatrix(id), SelfHook(UpdatePass, id)]) == [SelfHook(UpdatePass, id)] by {
      assert [SyncMatrix(id), SelfHook(UpdatePass, id)][..1] == [SyncMatrix(id)];
      assert [SyncMatrix(id)][..0] == [];
    }
    assert Unsynced([PostHook(UpdatePass, id)]) == [PostHook(UpdatePass, id)] by {
      assert [PostHook(UpdatePass, id)][..0] == [];
    }
  }

  lemma RelabelWrap(id: nat, u: seq<Event>)
    ensures Relabel([SelfHook(UpdatePass, id)] + u + [PostHook(UpdatePass, id)], Update2Pass)
            == [SelfHook(Update2Pass, id)] + Relabel(u, Update2Pass) + [PostHook(Update2Pass, id)]
  {
    RelabelAppend([SelfHook(UpdatePass, id)], u, Update2Pass);
    RelabelAppend([SelfHook(UpdatePass, id)] + u, [PostHook(UpdatePass, id)], Update2Pass);
  }

  lemma {:induction false} Update2ChildrenAreUnguarded(nodes: Arena, parent: nat, cs: seq<nat>, guard: nat -> bool,
                                                       accepts: (nat, Vec3, real) -> bool, fuel: nat)
    requires Closed(nodes) && (forall c :: c in cs ==> c in nodes) && forall c :: guard(c)
    ensures ChildrenUnguarded(nodes, parent, cs, guard, accepts, fuel)
    decreases fuel, 2, |cs|
  {
    if |cs| > 0 {
      var c := cs[|cs| - 1];
      var front := ChildTraces(UpdatePass, nodes, parent, cs[..|cs| - 1], guard, accepts, fuel);
      var sub := Trace(UpdatePass, nodes, c, guard, accepts, fuel);
      Update2ChildrenAreUnguarded(nodes, parent, cs[..|cs| - 1], guard, accepts, fuel);
      Update2IsUnguardedUpdate(nodes, c, guard, accepts, fuel);
      UnsyncedAppend(front, sub);
      RelabelAppend(Unsynced(front), Unsynced(sub), Update2Pass);
    }
  }

  /** A child the pass goes into runs its own self hook within the parent's pass. */
  lemma {:induction false} DescendedChildRuns(pass: Pass, nodes: Arena, id: nat, c: nat, guard: nat -> bool,
                                              accepts: (nat, Vec3, real) -> bool, fuel: nat)
    requires Closed(nodes) && id in nodes && fuel > 0 && c in nodes[id].children
    requires Descends(pass, nodes, id, c, guard, accepts)
    ensures SelfHook(pass, c) in Trace(pass, nodes, id, guard, accepts, fuel)
  {
    var rest: nat := fuel - 1;
    ChildInChildTraces(pass, nodes, id, nodes[id].children, c, guard, accepts, rest);
  }

  /**
   * A child whose bounding radius is the default 0 is never culled: draw and draw2 go into it
   * and run its self hook whatever the parent's frustum accepts.
   */
  lemma ZeroRadiusAlwaysDrawn(pass: Pass, nodes: Arena, id: nat, c: nat, guard: nat -> bool,
                              accepts: (nat, Vec3, real) -> bool, fuel: nat)
    requires Closed(nodes) && id in nodes && fuel > 0 && c in nodes[id].children
    requires pass == DrawPass || pass == Draw2Pass
    requires nodes[c].radius == 0.0
    ensures Descends(pass, nodes, id, c, guard, accepts)
    ensures SelfHook(pass, c) in Trace(pass, nodes, id, guard, accepts, fuel)
  {
    DescendedChildRuns(pass, nodes, id, c, guard, accepts, fuel);
  }

  lemma {:induction false} ChildInChildTraces(pass: Pass, nodes: Arena, parent: nat, cs: seq<nat>, c: nat, guard: nat -> bool,
                                              accepts: (nat, Vec3, real) -> bool, fuel: nat)
    requires Closed(nodes) && (forall x :: x in cs ==> x in nodes) && c in cs
    requires Descends(pass, nodes, parent, c, guard, accepts)
    ensures SelfHook(pass, c) in ChildTraces(pass, nodes, parent, cs, guard, accepts, fuel)
    decreases |cs|
  {
    var last := cs[|cs| - 1];
    var front := ChildTraces(pass, nodes, parent, cs[..|cs| - 1], guard, accepts, fuel);
    if last == c {
      assert SelfHook(pass, c) in Trace(pass, nodes, c, guard, accepts, fuel);
    } else {
      assert c in cs[..|cs| - 1] by {
        var i :| 0 <= i < |cs| && cs[i] == c;
        assert cs[..|cs| - 1][i] == c;
      }
      ChildInChildTraces(pass, nodes, parent, cs[..|cs| - 1], c, guard, accepts, fuel);
    }
  }

  /** In an update trace every self hook comes right after the syncMatrix of the same node. */
  ghost predicate SyncedBeforeSelf(t: seq<Event>) {
    forall k :: 0 <= k < |t| && t[k].SelfHook? ==> k > 0 && t[k - 1] == SyncMatrix(t[k].node)
  }

  lemma SyncedBeforeSelfAppend(a: seq<Event>, b: seq<Event>)
    requires SyncedBeforeSelf(a) && SyncedBeforeSelf(b)
    ensures SyncedBeforeSelf(a + b)
  {
    forall k | 0 <= k < |a + b| && (a + b)[k].SelfHook?
      ensures k > 0 && (a + b)[k - 1] == SyncMatrix((a + b)[k].node)
    {
      if k >= |a| {
        assert (a + b)[k] == b[k - |a|];
        assert (a + b)[k - 1] == b[k - |a| - 1];
      } else {
        assert (a + b)[k] == a[k];
        assert (a + b)[k - 1] == a[k - 1];
      }
    }
  }

  lemma {:induction false} UpdateSyncsFirst(nodes: Arena, id: nat, guard: nat -> bool, accepts: (nat, Vec3, real) -> bool, fuel: nat)
    requires Closed(nodes) && id in nodes
    ensures SyncedBeforeSelf(Trace(UpdatePass, nodes, id, guard, accepts, fuel))
    decreases fuel, 1, 0
  {
    var inner := if fuel == 0 then [] else ChildTraces(UpdatePass, nodes, id, nodes[id].children, guard, accepts, fuel - 1);
    if fuel > 0 {
      ChildrenSyncFirst(nodes, id, nodes[id].children, guard, accepts, fuel - 1);
    }
    var head := [SyncMatrix(id), SelfHook(UpdatePass, id)];
    assert SyncedBeforeSelf(head);
    SyncedBeforeSelfAppend(head, inner);
    SyncedBeforeSelfAppend(head + inner, [PostHook(UpdatePass, id)]);
    assert Trace(UpdatePass, nodes, id, guard, accepts, fuel) == head + inner + [PostHook(UpdatePass, id)];
  }

  lemma {:induction false} ChildrenSyncFirst(nodes: Arena, parent: nat, cs: seq<nat>, guard: nat -> bool,
                                             accepts: (nat, Vec3, real) -> bool, fuel: nat)
    requires Closed(nodes) && forall c :: c in cs ==> c in nodes
    ensures SyncedBeforeSelf(ChildTraces(UpdatePass, nodes, parent, cs, guard, accepts, fuel))
    decreases fuel, 2, |cs|
  {
    if |cs| > 0 {
      var c := cs[|cs| - 1];
      ChildrenSyncFirst(nodes, parent, cs[..|cs| - 1], guard, accepts, fuel);
      UpdateSyncsFirst(nodes, c, guard, accepts, fuel);
      var sub := if Descends(UpdatePass, nodes, parent, c, guard, accepts) then Trace(UpdatePass, nodes, c, guard, accepts, fuel) else [];
      SyncedBeforeSelfAppend(ChildTraces(UpdatePass, nodes, parent, cs[..|cs| - 1], guard, accepts, fuel), sub);
    }
  }
}

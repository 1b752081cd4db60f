/**
 * The scene graph as the program keeps it: every AObject updated in place. Class Graph holds
 * all nodes in an arena keyed by id; its methods are AObject's mutators, add and remove, the
 * lazily refreshed model matrix, the four passes, and the two collision queries, each proved
 * to do what the specification functions of modules SceneNode and Collision say.
 */
module SceneGraph {
  import opened Math3D
  import opened Wrappers
  import opened Sequences
  import opened SceneNode
  import opened Collision
  import TerrainQuery
  import Sphere

  /** Every node sound, and every id below the next one to hand out. */
  predicate ValidArena(nodes: Arena, next: nat) {
    Sound(nodes) && forall id :: id in nodes ==> id < next
  }

  lemma CreateKeepsValid(nodes: Arena, next: nat, radius: real, kind: Kind)
    requires ValidArena(nodes, next) && KindValid(kind)
    ensures next !in nodes && ValidArena(nodes[next := NewNode(radius, kind)], next + 1)
  {
  }

  /** A mutator changes neither links nor kinds, so the arena stays sound. */
  lemma MutateKeepsValid(nodes: Arena, next: nat, id: nat, m: Mutation)
    requires ValidArena(nodes, next) && id in nodes
    ensures ValidArena(nodes[id := Mutated(nodes[id], m)], next)
  {
    var r := nodes[id := Mutated(nodes[id], m)];
    forall k | k in r
      ensures (r[k].parent.Some? ==> r[k].parent.value in r) && (forall x :: x in r[k].children ==> x in r) && KindValid(r[k].kind)
    {
      assert r[k].parent == nodes[k].parent && r[k].children == nodes[k].children && r[k].kind == nodes[k].kind;
    }
  }

  /** A relink to ids of the arena keeps every link inside it and every kind as it was. */
  lemma RelinkedKeepsValid(nodes: Arena, next: nat, c: nat, parent: Option<nat>, p: nat, children: seq<nat>)
    requires ValidArena(nodes, next) && c in nodes && p in nodes
    requires parent.Some? ==> parent.value in nodes
    requires forall x :: x in children ==> x in nodes
    ensures ValidArena(Relinked(nodes, c, parent, p, children), next)
  {
    var r := Relinked(nodes, c, parent, p, children);
    forall k | k in r
      ensures (r[k].parent.Some? ==> r[k].parent.value in r) && (forall x :: x in r[k].children ==> x in r)
      ensures KindValid(r[k].kind) && k < next
    {
      RelinkedEntry(nodes, c, parent, p, children, k);
    }
    assert Closed(r);
  }

  /** One entry of a relink: its links and kind, and that it keeps the arena's ids. */
  lemma RelinkedEntry(nodes: Arena, c: nat, parent: Option<nat>, p: nat, children: seq<nat>, k: nat)
    requires k in nodes
    ensures var r := Relinked(nodes, c, parent, p, children);
            r.Keys == nodes.Keys
            && r[k] == nodes[k].(parent := if k == c then parent else nodes[k].parent,
                                 children := if k == p then children else nodes[k].children)
  {
  }

  /** remove only drops a parent link and one list entry, so the arena stays sound. */
  lemma RemoveKeepsValid(nodes: Arena, next: nat, p: nat, c: nat)
    requires ValidArena(nodes, next) && p in nodes && c in nodes
    ensures ValidArena(Removed(nodes, p, c), next)
  {
    RelinkedKeepsValid(nodes, next, c, None, p, RemoveFirst(nodes[p].children, c));
  }

  /** Linking c under p keeps every id it links in the arena and every kind as it was. */
  lemma AttachKeepsValid(nodes: Arena, next: nat, p: nat, c: nat)
    requires ValidArena(nodes, next) && p in nodes && c in nodes
    ensures ValidArena(Attached(nodes, p, c), next)
  {
    RelinkedKeepsValid(nodes, next, c, Some(p), p, nodes[p].children + [c]);
  }

  /** Refreshing caches keeps the arena sound. */
  lemma SameShapeKeepsValid(a: Arena, b: Arena, next: nat)
    requires ValidArena(a, next) && SameShape(a, b)
    ensures ValidArena(b, next)
  {
    SameShapeSound(a, b);
  }

  /** The classes that answer intersectLine themselves: the landscape's ground and the dummy's sphere. */
  predicate Hittable(nodes: Arena, x: nat) {
    x in nodes && (nodes[x].kind.Landscape? || nodes[x].kind.Dummy?)
  }

  // ---------------------------------------------------------------- what intersectLine tries

  /**
   * One own test made by intersectLine: the node, the length and normal it was handed, the
   * world position it used as its sphere's centre (a dummy's; unused for a landscape), and
   * what it answered.
   */
  datatype Probe = Probe(node: nat, length: real, normal: Vec3, position: Vec3, answer: LineHit)

  /**
   * A probe answered as the node's class answers: a dummy by its sphere test, a landscape by
   * cutting nearer with the ground normal at the hit point or handing the ray back untouched.
   */
  predicate Answers(nodes: Arena, sqrt: real -> real, origin: Vec3, dir: Vec3, p: Probe)
    requires IsSqrt(sqrt) && LengthSq(dir) > 0.0
  {
    Hittable(nodes, p.node) && KindValid(nodes[p.node].kind)
    && (nodes[p.node].kind.Dummy? ==>
          p.answer == DummyIntersect(sqrt, p.node, p.position, origin, dir, LineHit(None, p.length, p.normal)))
    && (nodes[p.node].kind.Landscape? ==>
          (p.answer.target.None? ==> p.answer == LineHit(None, p.length, p.normal))
          && (p.answer.target.Some? ==>
                var q := Add(origin, Scale(dir, p.answer.length));
                p.answer.target == Some(p.node) && 0.0 < p.answer.length < p.length
                && p.answer.normal == TerrainQuery.GetNormalClamped(sqrt, nodes[p.node].kind.terrain, Vec2(q.x, q.z))))
  }

  /** Every probe of ps answered as its class answers. */
  predicate AllAnswer(nodes: Arena, sqrt: real -> real, origin: Vec3, dir: Vec3, ps: seq<Probe>)
    requires IsSqrt(sqrt) && LengthSq(dir) > 0.0
  {
    forall k {:trigger Answers(nodes, sqrt, origin, dir, ps[k])} :: 0 <= k < |ps| ==> Answers(nodes, sqrt, origin, dir, ps[k])
  }

  /** The length and normal left after the probes, from the given start. */
  function After(ps: seq<Probe>, length: real, normal: Vec3): (real, Vec3) {
    if |ps| == 0 then (length, normal) else (ps[|ps| - 1].answer.length, ps[|ps| - 1].answer.normal)
  }

  /** One ray for all probes: the first is handed the start, each later one what the one before left. */
  ghost predicate Chained(ps: seq<Probe>, length: real, normal: Vec3) {
    (|ps| > 0 ==> ps[0].length == length && ps[0].normal == normal)
    && forall j, k {:trigger ps[j], ps[k]} :: 0 <= j && k == j + 1 && k < |ps| ==>
         ps[k].length == ps[j].answer.length && ps[k].normal == ps[j].answer.normal
  }

  /** The object of the last probe that cut the ray, or none. */
  function LastCut(ps: seq<Probe>): (r: Option<nat>)
    ensures r.Some? ==> exists k :: 0 <= k < |ps| && ps[k].answer.target == r
  {
    if |ps| == 0 then None
    else if ps[|ps| - 1].answer.target.Some? then ps[|ps| - 1].answer.target
    else LastCut(ps[..|ps| - 1])
  }

  /** What a walk returns after its probes: the last cut's object with the length and normal left. */
  function Outcome(ps: seq<Probe>, length: real, normal: Vec3): LineHit {
    LineHit(LastCut(ps), After(ps, length, normal).0, After(ps, length, normal).1)
  }

  /** The nodes probed, in order. */
  function Probed(ps: seq<Probe>): (r: seq<nat>)
    ensures |r| == |ps| && forall k :: 0 <= k < |ps| ==> r[k] == ps[k].node
  {
    seq(|ps|, k requires 0 <= k < |ps| => ps[k].node)
  }

  /**
   * The order in which intersectLine on id probes: below id the children in list order,
   * skipping the excluded object and everything under it, each child's own subtree first;
   * then id itself when its class answers.
   */
  function Visit(nodes: Arena, id: nat, exclude: Option<nat>, fuel: nat): seq<nat>
    requires Closed(nodes) && id in nodes
    decreases fuel, 1
  {
    (if fuel == 0 then [] else VisitChildren(nodes, nodes[id].children, exclude, fuel - 1))
    + (if Hittable(nodes, id) then [id] else [])
  }

  function VisitChildren(nodes: Arena, cs: seq<nat>, exclude: Option<nat>, fuel: nat): seq<nat>
    requires Closed(nodes) && forall c :: c in cs ==> c in nodes
    decreases fuel, 2, |cs|
  {
    if |cs| == 0 then []
    else
      VisitChildren(nodes, cs[..|cs| - 1], exclude, fuel)
      + (if Some(cs[|cs| - 1]) == exclude then [] else Visit(nodes, cs[|cs| - 1], exclude, fuel))
  }

  /** ps are the probes intersectLine on id makes below id before testing id itself. */
  ghost predicate VisitedBelow(nodes: Arena, id: nat, exclude: Option<nat>, fuel: nat, ps: seq<Probe>)
    requires Closed(nodes) && id in nodes
  {
    if fuel == 0 then ps == [] else Probed(ps) == VisitChildren(nodes, nodes[id].children, exclude, fuel - 1)
  }

  /** The children's walk over the whole list is what intersectLine probes below id. */
  lemma VisitedAllChildren(nodes: Arena, id: nat, exclude: Option<nat>, fuel: nat, ps: seq<Probe>,
                           children: seq<nat>, i: nat, rest: nat)
    requires Closed(nodes) && id in nodes && children == nodes[id].children
    requires fuel > 0 && rest == fuel - 1 && i == |children|
    requires Probed(ps) == VisitChildren(nodes, children[..i], exclude, rest)
    ensures VisitedBelow(nodes, id, exclude, fuel, ps)
  {
    assert children[..i] == children;
  }

  lemma VisitChildrenStep(nodes: Arena, cs: seq<nat>, exclude: Option<nat>, fuel: nat, i: nat)
    requires Closed(nodes) && (forall c :: c in cs ==> c in nodes) && i < |cs|
    ensures VisitChildren(nodes, cs[..i + 1], exclude, fuel)
            == VisitChildren(nodes, cs[..i], exclude, fuel)
               + (if Some(cs[i]) == exclude then [] else Visit(nodes, cs[i], exclude, fuel))
  {
    assert cs[..i + 1][..i] == cs[..i];
  }

  /** The probing order reads only links and kinds: the matrix caches do not change it. */
  lemma {:induction false} VisitShapeOnly(a: Arena, b: Arena, id: nat, exclude: Option<nat>, fuel: nat)
    requires Closed(a) && Closed(b) && SameShape(a, b) && id in a
    ensures Visit(a, id, exclude, fuel) == Visit(b, id, exclude, fuel)
    decreases fuel, 1
  {
    assert b[id].children == a[id].children && Hittable(b, id) == Hittable(a, id);
    if fuel > 0 {
      VisitChildrenShapeOnly(a, b, a[id].children, exclude, fuel - 1);
    }
  }

  lemma {:induction false} VisitChildrenShapeOnly(a: Arena, b: Arena, cs: seq<nat>, exclude: Option<nat>, fuel: nat)
    requires Closed(a) && Closed(b) && SameShape(a, b) && forall c :: c in cs ==> c in a
    ensures VisitChildren(a, cs, exclude, fuel) == VisitChildren(b, cs, exclude, fuel)
    decreases fuel, 2, |cs|
  {
    if |cs| > 0 {
      VisitChildrenShapeOnly(a, b, cs[..|cs| - 1], exclude, fuel);
      VisitShapeOnly(a, b, cs[|cs| - 1], exclude, fuel);
    }
  }

  /** Probes answered in one arena are answered alike in an arena of the same shape. */
  lemma AnswersShapeOnly(a: Arena, b: Arena, sqrt: real -> real, origin: Vec3, dir: Vec3, ps: seq<Probe>)
    requires IsSqrt(sqrt) && LengthSq(dir) > 0.0
    requires SameShape(a, b) && AllAnswer(a, sqrt, origin, dir, ps)
    ensures AllAnswer(b, sqrt, origin, dir, ps)
  {
    forall k | 0 <= k < |ps|
      ensures Answers(b, sqrt, origin, dir, ps[k])
    {
      assert Answers(a, sqrt, origin, dir, ps[k]);
      assert b[ps[k].node].kind == a[ps[k].node].kind;
    }
  }

  /** Two walks one after the other on the same ray: their probes chain, and the later cut wins. */
  lemma ChainedJoin(a: seq<Probe>, b: seq<Probe>, length: real, normal: Vec3)
    requires Chained(a, length, normal) && Chained(b, After(a, length, normal).0, After(a, length, normal).1)
    ensures Chained(a + b, length, normal)
    ensures Outcome(a + b, length, normal)
            == var o := Outcome(b, After(a, length, normal).0, After(a, length, normal).1);
               if o.target.Some? then o else Outcome(a, length, normal).(length := o.length, normal := o.normal)
  {
    var ab := a + b;
    forall k | 0 < k < |ab|
      ensures ab[k].length == ab[k - 1].answer.length && ab[k].normal == ab[k - 1].answer.normal
    {
      if k >= |a| {
        assert ab[k] == b[k - |a|];
        if k > |a| {
          assert ab[k - 1] == b[k - 1 - |a|];
        }
      }
    }
    LastCutJoin(a, b);
  }

  /** The last cut of two walks one after the other: the later walk's, if it cut at all. */
  lemma {:induction false} LastCutJoin(a: seq<Probe>, b: seq<Probe>)
    ensures LastCut(a + b) == if LastCut(b).Some? then LastCut(b) else LastCut(a)
    decreases |b|
  {
    if |b| == 0 {
      assert a + b == a;
    } else {
      assert (a + b)[..|a + b| - 1] == a + b[..|b| - 1];
      LastCutJoin(a, b[..|b| - 1]);
    }
  }

  /** The arena relation SameShape runs both ways. */
  lemma SameShapeSymmetric(a: Arena, b: Arena)
    requires SameShape(a, b)
    ensures SameShape(b, a)
  {
  }

  /** A probe alone is a walk, and what the walk returns is its answer. */
  lemma SingleProbe(nodes: Arena, sqrt: real -> real, origin: Vec3, dir: Vec3, p: Probe)
    requires IsSqrt(sqrt) && LengthSq(dir) > 0.0 && Answers(nodes, sqrt, origin, dir, p)
    ensures Probed([p]) == [p.node]
    ensures Chained([p], p.length, p.normal) && AllAnswer(nodes, sqrt, origin, dir, [p])
    ensures Outcome([p], p.length, p.normal) == p.answer
  {
    assert [p][..0] == [];
  }

  /** A probe never lengthens the ray; it cuts strictly nearer, or hands back what it was given. */
  lemma AnswerNoLonger(nodes: Arena, sqrt: real -> real, origin: Vec3, dir: Vec3, p: Probe)
    requires IsSqrt(sqrt) && LengthSq(dir) > 0.0 && Answers(nodes, sqrt, origin, dir, p)
    ensures p.answer.target.Some? ==> p.answer.length < p.length
    ensures p.answer.target.None? ==> p.answer == LineHit(None, p.length, p.normal)
  {
  }

  /** Along a walk each probe is handed no more than the start, and no more than any earlier answer. */
  lemma {:induction false} ChainMonotone(nodes: Arena, sqrt: real -> real, origin: Vec3, dir: Vec3,
                                         ps: seq<Probe>, length: real, normal: Vec3, k: nat)
    requires IsSqrt(sqrt) && LengthSq(dir) > 0.0
    requires Chained(ps, length, normal) && AllAnswer(nodes, sqrt, origin, dir, ps) && k < |ps|
    ensures ps[k].length <= length
    ensures forall j :: 0 <= j < k ==> ps[k].length <= ps[j].answer.length
    decreases k
  {
    if k > 0 {
      ChainMonotone(nodes, sqrt, origin, dir, ps, length, normal, k - 1);
      AnswerNoLonger(nodes, sqrt, origin, dir, ps[k - 1]);
    }
  }

  /**
   * The ray only gets shorter along a walk: what the walk returns is no longer than any
   * probe's answer, each answer no longer than what the probe was handed, and that no longer
   * than the start.
   */
  lemma {:induction false} WalkShortens(nodes: Arena, sqrt: real -> real, origin: Vec3, dir: Vec3,
                                        ps: seq<Probe>, length: real, normal: Vec3)
    requires IsSqrt(sqrt) && LengthSq(dir) > 0.0
    requires Chained(ps, length, normal) && AllAnswer(nodes, sqrt, origin, dir, ps)
    ensures Outcome(ps, length, normal).length <= length
    ensures forall k :: 0 <= k < |ps| ==>
              Outcome(ps, length, normal).length <= ps[k].answer.length <= ps[k].length <= length
  {
    if |ps| > 0 {
      var n := |ps| - 1;
      ChainMonotone(nodes, sqrt, origin, dir, ps, length, normal, n);
      AnswerNoLonger(nodes, sqrt, origin, dir, ps[n]);
      forall k | 0 <= k < |ps|
        ensures Outcome(ps, length, normal).length <= ps[k].answer.length <= ps[k].length <= length
      {
        ChainMonotone(nodes, sqrt, origin, dir, ps, length, normal, k);
        AnswerNoLonger(nodes, sqrt, origin, dir, ps[k]);
      }
    }
  }

  /**
   * The object a walk names made the last cut, and the walk returns exactly that probe's
   * answer: no probe after it cut, and every other probe that cut did so strictly further
   * away.
   */
  lemma LastCutNearest(nodes: Arena, sqrt: real -> real, origin: Vec3, dir: Vec3,
                       ps: seq<Probe>, length: real, normal: Vec3) returns (k: nat)
    requires IsSqrt(sqrt) && LengthSq(dir) > 0.0
    requires Chained(ps, length, normal) && AllAnswer(nodes, sqrt, origin, dir, ps)
    requires LastCut(ps).Some?
    ensures k < |ps| && ps[k].answer == Outcome(ps, length, normal)
    ensures forall j :: k < j < |ps| ==> ps[j].answer.target.None?
    ensures forall j :: 0 <= j < |ps| && j != k && ps[j].answer.target.Some? ==> ps[k].answer.length < ps[j].answer.length
  {
    AllAnswerUncutKeep(nodes, sqrt, origin, dir, ps);
    k := LastCutIndex(ps, length, normal);
    AnswerNoLonger(nodes, sqrt, origin, dir, ps[k]);
    forall j | 0 <= j < k && ps[j].answer.target.Some?
      ensures ps[k].answer.length < ps[j].answer.length
    {
      ChainMonotone(nodes, sqrt, origin, dir, ps, length, normal, k);
    }
  }

  /** Probes that do not cut hand back the ray they were given. */
  predicate UncutKeep(ps: seq<Probe>) {
    forall j :: 0 <= j < |ps| && ps[j].answer.target.None? ==> ps[j].answer == LineHit(None, ps[j].length, ps[j].normal)
  }

  lemma AllAnswerUncutKeep(nodes: Arena, sqrt: real -> real, origin: Vec3, dir: Vec3, ps: seq<Probe>)
    requires IsSqrt(sqrt) && LengthSq(dir) > 0.0 && AllAnswer(nodes, sqrt, origin, dir, ps)
    ensures UncutKeep(ps)
  {
    forall j | 0 <= j < |ps|
      ensures ps[j].answer.target.None? ==> ps[j].answer == LineHit(None, ps[j].length, ps[j].normal)
    {
      AnswerNoLonger(nodes, sqrt, origin, dir, ps[j]);
    }
  }

  /** Where the last cut of a walk is: its answer is what the walk returns, and nothing after it cuts. */
  lemma {:induction false} LastCutIndex(ps: seq<Probe>, length: real, normal: Vec3) returns (k: nat)
    requires Chained(ps, length, normal) && UncutKeep(ps) && LastCut(ps).Some?
    ensures k < |ps| && ps[k].answer == Outcome(ps, length, normal)
    ensures forall j :: k < j < |ps| ==> ps[j].answer.target.None?
    decreases |ps|
  {
    var n := |ps| - 1;
    if ps[n].answer.target.Some? {
      k := n;
    } else {
      var front := ps[..n];
      assert Chained(front, length, normal) && UncutKeep(front) by {
        forall j | 0 <= j < n
          ensures front[j] == ps[j]
        {
        }
      }
      k := LastCutIndex(front, length, normal);
      assert front[k] == ps[k];
      assert ps[n].answer == LineHit(None, ps[n].length, ps[n].normal);
      if n > 0 {
        assert front[n - 1] == ps[n - 1];
      }
      forall j | k < j < |ps|
        ensures ps[j].answer.target.None?
      {
        if j < n {
          assert front[j] == ps[j];
        }
      }
    }
  }

  /** A walk cut short is still a walk. */
  lemma PrefixWalk(nodes: Arena, sqrt: real -> real, origin: Vec3, dir: Vec3,
                   ps: seq<Probe>, length: real, normal: Vec3, n: nat)
    requires IsSqrt(sqrt) && LengthSq(dir) > 0.0
    requires Chained(ps, length, normal) && AllAnswer(nodes, sqrt, origin, dir, ps) && n <= |ps|
    ensures Chained(ps[..n], length, normal) && AllAnswer(nodes, sqrt, origin, dir, ps[..n])
  {
    var front := ps[..n];
    forall j | 0 <= j < |front|
      ensures front[j] == ps[j]
    {
    }
  }

  /**
   * A walk followed by a later one on the same ray, in an arena of the same shape: together
   * they are one walk, probing the nodes of both in order.
   */
  lemma WalkJoin(a: Arena, b: Arena, sqrt: real -> real, origin: Vec3, dir: Vec3,
                 ps: seq<Probe>, more: seq<Probe>, length: real, normal: Vec3)
    requires IsSqrt(sqrt) && LengthSq(dir) > 0.0 && SameShape(b, a)
    requires Chained(ps, length, normal) && AllAnswer(a, sqrt, origin, dir, ps)
    requires Chained(more, After(ps, length, normal).0, After(ps, length, normal).1) && AllAnswer(b, sqrt, origin, dir, more)
    ensures Chained(ps + more, length, normal) && AllAnswer(a, sqrt, origin, dir, ps + more)
    ensures Probed(ps + more) == Probed(ps) + Probed(more)
    ensures Outcome(ps + more, length, normal)
            == var o := Outcome(more, After(ps, length, normal).0, After(ps, length, normal).1);
               if o.target.Some? then o else Outcome(ps, length, normal).(length := o.length, normal := o.normal)
  {
    AnswersShapeOnly(b, a, sqrt, origin, dir, more);
    ChainedJoin(ps, more, length, normal);
    AllAnswerJoin(a, sqrt, origin, dir, ps, more);
    ProbedJoin(ps, more);
  }

  lemma AllAnswerJoin(nodes: Arena, sqrt: real -> real, origin: Vec3, dir: Vec3, ps: seq<Probe>, more: seq<Probe>)
    requires IsSqrt(sqrt) && LengthSq(dir) > 0.0
    requires AllAnswer(nodes, sqrt, origin, dir, ps) && AllAnswer(nodes, sqrt, origin, dir, more)
    ensures AllAnswer(nodes, sqrt, origin, dir, ps + more)
  {
    var all := ps + more;
    forall k | 0 <= k < |all|
      ensures Answers(nodes, sqrt, origin, dir, all[k])
    {
      if k >= |ps| {
        assert all[k] == more[k - |ps|];
      }
    }
  }

  lemma ProbedJoin(ps: seq<Probe>, more: seq<Probe>)
    ensures Probed(ps + more) == Probed(ps) + Probed(more)
  {
  }

  /**
   * The walk's answer is nearer than every probed dummy's sphere seen from outside it: the ray
   * meets none of those spheres before the length the walk returns.
   */
  lemma NoProbedDummyNearer(nodes: Arena, sqrt: real -> real, origin: Vec3, dir: Vec3,
                            ps: seq<Probe>, length: real, normal: Vec3)
    requires IsSqrt(sqrt) && LengthSq(dir) > 0.0
    requires Chained(ps, length, normal) && AllAnswer(nodes, sqrt, origin, dir, ps)
    ensures forall k, t :: 0 <= k < |ps| && ps[k].node in nodes && nodes[ps[k].node].kind.Dummy?
                           && Sphere.QuadC(ps[k].position, DummyHitRadius, origin) >= 0.0
                           && 0.0 <= t < Outcome(ps, length, normal).length
                           ==> !Sphere.MeetsSurface(ps[k].position, DummyHitRadius, origin, dir, t)
  {
    WalkShortens(nodes, sqrt, origin, dir, ps, length, normal);
    forall k | 0 <= k < |ps| && ps[k].node in nodes && nodes[ps[k].node].kind.Dummy?
                && Sphere.QuadC(ps[k].position, DummyHitRadius, origin) >= 0.0
      ensures forall t :: 0.0 <= t < Outcome(ps, length, normal).length
                          ==> !Sphere.MeetsSurface(ps[k].position, DummyHitRadius, origin, dir, t)
    {
      assert Answers(nodes, sqrt, origin, dir, ps[k]);
      DummyHitIsNearestSurfacePoint(sqrt, ps[k].node, ps[k].position, origin, dir, LineHit(None, ps[k].length, ps[k].normal));
    }
  }

  /**
   * intersectLine's last step: the children's walk, then the node's own probe on what they
   * left, is the walk Visit describes, and the own probe's cut, if any, wins.
   */
  lemma OwnStep(a: Arena, b: Arena, sqrt: real -> real, origin: Vec3, dir: Vec3, id: nat, exclude: Option<nat>,
                fuel: nat, h: LineHit, ps: seq<Probe>, r: LineHit, mine: seq<Probe>, own: LineHit)
    requires IsSqrt(sqrt) && LengthSq(dir) > 0.0 && Closed(a) && id in a && SameShape(a, b)
    requires VisitedBelow(a, id, exclude, fuel, ps)
    requires Chained(ps, h.length, h.normal) && AllAnswer(a, sqrt, origin, dir, ps)
    requires r == Outcome(ps, h.length, h.normal)
    requires Probed(mine) == if Hittable(b, id) then [id] else []
    requires Chained(mine, r.length, r.normal) && AllAnswer(b, sqrt, origin, dir, mine)
    requires own == Outcome(mine, r.length, r.normal)
    requires own.target.None? ==> own.length == r.length && own.normal == r.normal
    ensures Probed(ps + mine) == Visit(a, id, exclude, fuel)
    ensures Chained(ps + mine, h.length, h.normal) && AllAnswer(a, sqrt, origin, dir, ps + mine)
    ensures (if own.target.Some? then own else r) == Outcome(ps + mine, h.length, h.normal)
  {
    SameShapeSymmetric(a, b);
    assert b[id].kind == a[id].kind;
    WalkJoin(a, b, sqrt, origin, dir, ps, mine, h.length, h.normal);
  }

  /** One child's answer, taken if it names an object, keeps intersectChildren's bounds on the result. */
  lemma ChildBounds(a: Arena, b: Arena, c: nat, exclude: Option<nat>, h: LineHit, r: LineHit, sub: LineHit)
    requires SameShape(a, b) && Some(c) != exclude
    requires r.target.None? ==> r.length == h.length && r.normal == h.normal
    requires r.target.Some? ==> 0.0 <= r.length < h.length && Hittable(a, r.target.value) && r.target != exclude
    requires sub.target.Some? ==> 0.0 <= sub.length < r.length && Hittable(b, sub.target.value)
    requires sub.target.Some? && sub.target != Some(c) ==> sub.target != exclude
    ensures var n := if sub.target.Some? then sub else r;
            && (n.target.None? ==> n.length == h.length && n.normal == h.normal)
            && (n.target.Some? ==> 0.0 <= n.length < h.length && Hittable(a, n.target.value) && n.target != exclude)
  {
    if sub.target.Some? {
      assert b[sub.target.value].kind == a[sub.target.value].kind;
    }
  }

  /** The node's own answer, taken if it names an object, keeps intersectLine's bounds on the result. */
  lemma OwnBounds(a: Arena, b: Arena, id: nat, exclude: Option<nat>, h: LineHit, r: LineHit, own: LineHit)
    requires SameShape(a, b)
    requires r.target.None? ==> r.length == h.length && r.normal == h.normal
    requires r.target.Some? ==> 0.0 <= r.length < h.length && Hittable(a, r.target.value) && r.target != exclude
    requires own.target.Some? ==> own.target == Some(id) && 0.0 <= own.length < r.length && Hittable(b, id)
    ensures var n := if own.target.Some? then own else r;
            && (n.target.None? ==> n.length == h.length && n.normal == h.normal)
            && (n.target.Some? ==> 0.0 <= n.length < h.length && Hittable(a, n.target.value))
            && (n.target.Some? && n.target != Some(id) ==> n.target != exclude)
  {
    if own.target.Some? {
      assert b[id].kind == a[id].kind;
    }
  }

  /**
   * One child of intersectChildren: the walk so far, then the child's own walk on what it
   * left, is the walk VisitChildren describes up to that child, and the child's cut, if any,
   * wins.
   */
  lemma ChildStep(a: Arena, b: Arena, sqrt: real -> real, origin: Vec3, dir: Vec3, cs: seq<nat>, i: nat,
                  exclude: Option<nat>, fuel: nat, h: LineHit, ps: seq<Probe>, r: LineHit, subs: seq<Probe>, sub: LineHit)
    requires IsSqrt(sqrt) && LengthSq(dir) > 0.0 && Closed(a) && Closed(b) && SameShape(a, b)
    requires (forall c :: c in cs ==> c in a) && i < |cs| && Some(cs[i]) != exclude
    requires Probed(ps) == VisitChildren(a, cs[..i], exclude, fuel)
    requires Chained(ps, h.length, h.normal) && AllAnswer(a, sqrt, origin, dir, ps)
    requires r == Outcome(ps, h.length, h.normal)
    requires Probed(subs) == Visit(b, cs[i], exclude, fuel)
    requires Chained(subs, r.length, r.normal) && AllAnswer(b, sqrt, origin, dir, subs)
    requires sub == Outcome(subs, r.length, r.normal)
    requires sub.target.None? ==> sub.length == r.length && sub.normal == r.normal
    ensures Probed(ps + subs) == VisitChildren(a, cs[..i + 1], exclude, fuel)
    ensures Chained(ps + subs, h.length, h.normal) && AllAnswer(a, sqrt, origin, dir, ps + subs)
    ensures (if sub.target.Some? then sub else r) == Outcome(ps + subs, h.length, h.normal)
  {
    SameShapeSymmetric(a, b);
    VisitChildrenStep(a, cs, exclude, fuel, i);
    VisitShapeOnly(a, b, cs[i], exclude, fuel);
    WalkJoin(a, b, sqrt, origin, dir, ps, subs, h.length, h.normal);
  }

  class Graph {
    var nodes: Arena
    /** The id the next created node gets. */
    var next: nat

    ghost predicate Valid()
      reads this
    {
      ValidArena(nodes, next)
    }

    constructor ()
      ensures Valid() && nodes == map[] && next == 0
    {
      nodes, next := map[], 0;
    }

    /** The AObject constructor: a new node with a fresh id, the given bounding radius, and dirty. */
    method Create(radius: real, kind: Kind) returns (id: nat)
      requires Valid() && KindValid(kind)
      modifies this
      ensures Valid() && id == old(next) && next == id + 1
      ensures id !in old(nodes) && nodes == old(nodes)[id := NewNode(radius, kind)]
    {
      CreateKeepsValid(nodes, next, radius, kind);
      id := next;
      nodes := nodes[id := NewNode(radius, kind)];
      next := next + 1;
    }

    /**
     * The Teapot constructor: it hands AObject no bounding radius, so the node gets the
     * default 0, which the draw passes never cull and which makes the teapot's capsule thin.
     */
    method CreateTeapot() returns (id: nat)
      requires Valid()
      modifies this
      ensures Valid() && id == old(next) && next == id + 1
      ensures id !in old(nodes) && nodes == old(nodes)[id := NewNode(0.0, Kind.Teapot)]
      ensures nodes[id].radius <= FltEpsilon
    {
      id := Create(0.0, Kind.Teapot);
    }

    /** move, moveX/Y/Z, setPosition, setPositionX/Y/Z and setRotation on node id. */
    method Mutate(id: nat, m: Mutation)
      requires Valid() && id in nodes
      modifies this`nodes
      ensures Valid() && nodes == old(nodes)[id := Mutated(old(nodes)[id], m)]
    {
      MutateKeepsValid(nodes, next, id, m);
      nodes := nodes[id := Mutated(nodes[id], m)];
    }

    /** remove(c) on p: c's parent link is cleared, then the first c leaves p's list. */
    method Remove(p: nat, c: nat)
      requires Valid() && p in nodes && c in nodes
      modifies this`nodes
      ensures Valid() && nodes == Removed(old(nodes), p, c)
    {
      RemoveKeepsValid(nodes, next, p, c);
      RelinkedInTwoSteps(nodes, c, None, p, RemoveFirst(nodes[p].children, c));
      nodes := nodes[c := nodes[c].(parent := None)];
      nodes := nodes[p := nodes[p].(children := RemoveFirst(nodes[p].children, c))];
    }

    /** add(c) on p: c leaves the parent it had, goes to the end of p's list, and p becomes its parent. */
    method Add(p: nat, c: nat)
      requires Valid() && p in nodes && c in nodes
      modifies this`nodes
      ensures Valid() && nodes == Added(old(nodes), p, c)
    {
      if nodes[c].parent.Some? {
        Remove(nodes[c].parent.value, c);
      }
      assert nodes == Detached(old(nodes), c);
      Attach(p, c);
    }

    /** The second half of add(c): c goes to the end of p's list and p becomes its parent. */
    method Attach(p: nat, c: nat)
      requires Valid() && p in nodes && c in nodes
      modifies this`nodes
      ensures Valid() && nodes == Attached(old(nodes), p, c)
    {
      AttachKeepsValid(nodes, next, p, c);
      RelinkedInTwoSteps(nodes, c, Some(p), p, nodes[p].children + [c]);
      nodes := nodes[p := nodes[p].(children := nodes[p].children + [c])];
      nodes := nodes[c := nodes[c].(parent := Some(p))];
    }

    // ------------------------------------------------------------ the model matrix

    /** modelMatrix(): validateMatrix, then the cache. */
    method ModelMatrix(id: nat, fuel: nat) returns (m: Mat4)
      requires Valid() && id in nodes
      modifies this`nodes
      ensures Valid() && (nodes, m) == ModelMatrixOf(old(nodes), id, fuel)
      decreases fuel, 0
    {
      if fuel > 0 {
        var rest: nat := fuel - 1;
        ValidateMatrix(id, rest);
        ModelMatrixOfValidated(old(nodes), id, rest, nodes);
      }
      m := nodes[id].model;
    }

    /** syncMatrix: the parent's modelMatrix() or the identity, times T(position) R(rotation). */
    method SyncMatrix(id: nat, fuel: nat)
      requires Valid() && id in nodes
      modifies this`nodes
      ensures Valid() && nodes == Synced(old(nodes), id, fuel)
      decreases fuel, 1
    {
      var model;
      if nodes[id].parent.Some? {
        var base := ModelMatrix(nodes[id].parent.value, fuel);
        SyncedChild(old(nodes), id, fuel, nodes, base);
        model := SyncProduct(base, nodes[id].position, nodes[id].rotation);
      } else {
        SyncedRoot(old(nodes), id, fuel);
        model := RootProduct(nodes[id].position, nodes[id].rotation);
      }
      assert nodes[id] == old(nodes)[id].(model := nodes[id].model, dirty := nodes[id].dirty);
      var after := nodes[id := nodes[id].(model := model)];
      SameShapeKeepsValid(old(nodes), after, next);
      nodes := after;
    }

    /** validateMatrix: a dirty node is synced and marked clean. */
    method ValidateMatrix(id: nat, fuel: nat)
      requires Valid() && id in nodes
      modifies this`nodes
      ensures Valid() && nodes == Validate(old(nodes), id, fuel)
      decreases fuel, 2
    {
      if nodes[id].dirty {
        SyncMatrix(id, fuel);
        MarkClean(old(nodes), nodes, id);
        var after := nodes[id := nodes[id].(dirty := false)];
        SameShapeKeepsValid(old(nodes), after, next);
        nodes := after;
      }
    }

    /** worldPosition(): the origin of the validated model matrix. */
    method GetWorldPosition(id: nat, fuel: nat) returns (p: Vec3)
      requires Valid() && id in nodes
      modifies this`nodes
      ensures Valid() && p == WorldPosition(old(nodes), id, fuel)
      ensures nodes == ModelMatrixOf(old(nodes), id, fuel).0
    {
      var m := ModelMatrix(id, fuel);
      p := Xyz(Col(m, 3));
    }

    // ------------------------------------------------------------ the four passes

    /**
     * update, update2, draw and draw2 run on node id, with the hooks as events: update syncs the
     * node's matrix first, draw validates it (modelMatrix()), and each visits the children it
     * descends into in list order. `chain` bounds the parent walk of the matrix refresh.
     */
    method Traverse(pass: Pass, id: nat, guard: nat -> bool, accepts: (nat, Vec3, real) -> bool, fuel: nat, chain: nat)
      returns (events: seq<Event>)
      requires Valid() && id in nodes
      modifies this`nodes
      ensures Valid() && SameShape(old(nodes), nodes)
      ensures events == Trace(pass, old(nodes), id, guard, accepts, fuel)
      decreases fuel, 0
    {
      events := (if pass == UpdatePass then [Event.SyncMatrix(id)] else []) + [SelfHook(pass, id)];
      if pass == UpdatePass {
        SyncMatrix(id, chain);
      } else if pass == DrawPass {
        var _ := ModelMatrix(id, chain);
      }
      if fuel > 0 {
        var rest: nat := fuel - 1;
        ghost var before := nodes;
        var inner := TraverseChildren(pass, id, nodes[id].children, guard, accepts, rest, chain);
        ChildTracesShapeOnly(pass, old(nodes), before, id, old(nodes)[id].children, guard, accepts, rest);
        SameShapeTransitive(old(nodes), before, nodes);
        TraceUnfold(pass, old(nodes), id, guard, accepts, rest);
        events := events + inner;
      }
      events := events + [PostHook(pass, id)];
    }

    /** The loop over the children of `parent`: each it descends into gets the pass, in list order. */
    method TraverseChildren(pass: Pass, parent: nat, children: seq<nat>, guard: nat -> bool,
                            accepts: (nat, Vec3, real) -> bool, fuel: nat, chain: nat) returns (inner: seq<Event>)
      requires Valid() && forall c :: c in children ==> c in nodes
      modifies this`nodes
      ensures Valid() && SameShape(old(nodes), nodes)
      ensures inner == ChildTraces(pass, old(nodes), parent, children, guard, accepts, fuel)
      decreases fuel, 1
    {
      inner := [];
      var i := 0;
      while i < |children|
        invariant 0 <= i <= |children|
        invariant Valid() && SameShape(old(nodes), nodes)
        invariant inner == ChildTraces(pass, old(nodes), parent, children[..i], guard, accepts, fuel)
      {
        var c := children[i];
        ChildTracesStep(pass, old(nodes), parent, children, i, guard, accepts, fuel);
        DescendsShapeOnly(pass, old(nodes), nodes, parent, c, guard, accepts);
        if Descends(pass, nodes, parent, c, guard, accepts) {
          ghost var before := nodes;
          var sub := Traverse(pass, c, guard, accepts, fuel, chain);
          TraceShapeOnly(pass, old(nodes), before, c, guard, accepts, fuel);
          SameShapeTransitive(old(nodes), before, nodes);
          inner := inner + sub;
        }
        i := i + 1;
      }
      assert children[..|children|] == children;
    }

    // ------------------------------------------------------------ the collision queries

    /**
     * intersectLine on node id: the children in list order, skipping the excluded object and
     * everything below it, each cutting the ray it is passed; then a landscape tries its
     * terrain and a dummy its sphere, around its world position. The ghost ps lists those own
     * tests in order (Visit); the result is the last cut among them with the length and
     * normal left, and the lemmas on probes show that this is the nearest of the cuts.
     */
    method IntersectLine(sqrt: real -> real, id: nat, exclude: Option<nat>, origin: Vec3, dir: Vec3, h: LineHit,
                         fuel: nat, chain: nat) returns (r: LineHit, ghost ps: seq<Probe>)
      requires IsSqrt(sqrt) && LengthSq(dir) > 0.0 && Valid() && id in nodes
      modifies this`nodes
      ensures Valid() && SameShape(old(nodes), nodes)
      ensures Probed(ps) == Visit(old(nodes), id, exclude, fuel)
      ensures Chained(ps, h.length, h.normal) && AllAnswer(old(nodes), sqrt, origin, dir, ps)
      ensures r == Outcome(ps, h.length, h.normal)
      ensures r.target.None? ==> r.length == h.length && r.normal == h.normal
      ensures r.target.Some? ==> 0.0 <= r.length < h.length && Hittable(old(nodes), r.target.value)
      ensures r.target.Some? && r.target != Some(id) ==> r.target != exclude
      decreases fuel, 1
    {
      r, ps := LineHit(None, h.length, h.normal), [];
      if fuel > 0 {
        r, ps := IntersectChildren(sqrt, id, exclude, origin, dir, h, fuel, chain);
      }
      ghost var before := nodes;
      var own, mine := IntersectOwn(sqrt, id, origin, dir, r, chain);
      SameShapeTransitive(old(nodes), before, nodes);
      OwnStep(old(nodes), before, sqrt, origin, dir, id, exclude, fuel, h, ps, r, mine, own);
      OwnBounds(old(nodes), before, id, exclude, h, r, own);
      if own.target.Some? {
        r := own;
      }
      ps := ps + mine;
    }

    /**
     * The children of id in list order, skipping the excluded object, each cutting the ray
     * further: ps is their walks one after the other, and by ChainedJoin the result is the last
     * child's that named an object.
     */
    method IntersectChildren(sqrt: real -> real, id: nat, exclude: Option<nat>, origin: Vec3, dir: Vec3, h: LineHit,
                             fuel: nat, chain: nat) returns (r: LineHit, ghost ps: seq<Probe>)
      requires IsSqrt(sqrt) && LengthSq(dir) > 0.0 && Valid() && id in nodes && fuel > 0
      modifies this`nodes
      ensures Valid() && SameShape(old(nodes), nodes)
      ensures VisitedBelow(old(nodes), id, exclude, fuel, ps)
      ensures Chained(ps, h.length, h.normal) && AllAnswer(old(nodes), sqrt, origin, dir, ps)
      ensures r == Outcome(ps, h.length, h.normal)
      ensures r.target.None? ==> r.length == h.length && r.normal == h.normal
      ensures r.target.Some? ==> 0.0 <= r.length < h.length && Hittable(old(nodes), r.target.value) && r.target != exclude
      decreases fuel, 0
    {
      r, ps := LineHit(None, h.length, h.normal), [];
      var children, rest := nodes[id].children, fuel - 1;
      var i := 0;
      while i < |children|
        invariant 0 <= i <= |children|
        invariant Valid() && SameShape(old(nodes), nodes) && children == old(nodes)[id].children
        invariant Probed(ps) == VisitChildren(old(nodes), children[..i], exclude, rest)
        invariant Chained(ps, h.length, h.normal) && AllAnswer(old(nodes), sqrt, origin, dir, ps)
        invariant r == Outcome(ps, h.length, h.normal)
        invariant r.target.None? ==> r.length == h.length && r.normal == h.normal
        invariant r.target.Some? ==> 0.0 <= r.length < h.length && Hittable(old(nodes), r.target.value) && r.target != exclude
      {
        var c := children[i];
        VisitChildrenStep(old(nodes), children, exclude, rest, i);
        if Some(c) != exclude {
          ghost var before := nodes;
          var sub, subs := IntersectLine(sqrt, c, exclude, origin, dir, LineHit(None, r.length, r.normal), rest, chain);
          SameShapeTransitive(old(nodes), before, nodes);
          ChildStep(old(nodes), before, sqrt, origin, dir, children, i, exclude, rest, h, ps, r, subs, sub);
          ChildBounds(old(nodes), before, c, exclude, h, r, sub);
          if sub.target.Some? {
            r := sub;
          }
          ps := ps + subs;
        } else {
          assert VisitChildren(old(nodes), children[..i + 1], exclude, rest) == VisitChildren(old(nodes), children[..i], exclude, rest) + [];
        }
        i := i + 1;
      }
      VisitedAllChildren(old(nodes), id, exclude, fuel, ps, children, i, rest);
    }

    /**
     * The node's own part: a landscape tries its terrain, a dummy its sphere around its world
     * position; ps is that one probe, or nothing for a class that does not answer.
     */
    method IntersectOwn(sqrt: real -> real, id: nat, origin: Vec3, dir: Vec3, h: LineHit, chain: nat)
      returns (r: LineHit, ghost ps: seq<Probe>)
      requires IsSqrt(sqrt) && LengthSq(dir) > 0.0 && Valid() && id in nodes
      modifies this`nodes
      ensures Valid() && SameShape(old(nodes), nodes)
      ensures Probed(ps) == if Hittable(old(nodes), id) then [id] else []
      ensures Chained(ps, h.length, h.normal) && AllAnswer(old(nodes), sqrt, origin, dir, ps)
      ensures r == Outcome(ps, h.length, h.normal)
      ensures r.target.None? ==> r.length == h.length && r.normal == h.normal
      ensures r.target.Some? ==> r.target == Some(id) && 0.0 <= r.length < h.length && Hittable(old(nodes), id)
    {
      r, ps := LineHit(None, h.length, h.normal), [];
      match nodes[id].kind
      case Landscape(t) =>
        var hit, length, normal, _ := TerrainQuery.IntersectLine(sqrt, t, origin, dir, h.length, h.normal);
        if hit {
          r := LineHit(Some(id), length, normal);
        }
        assert Answers(old(nodes), sqrt, origin, dir, Probe(id, h.length, h.normal, origin, r));
        SingleProbe(old(nodes), sqrt, origin, dir, Probe(id, h.length, h.normal, origin, r));
        ps := [Probe(id, h.length, h.normal, origin, r)];
      case Dummy =>
        ghost var before := nodes;
        var p := GetWorldPosition(id, chain);
        SameShapeTransitive(old(nodes), before, nodes);
        var d := DummyIntersect(sqrt, id, p, origin, dir, LineHit(None, h.length, h.normal));
        if d.target.Some? {
          r := d;
        }
        assert old(nodes)[id].kind.Dummy?;
        assert Answers(old(nodes), sqrt, origin, dir, Probe(id, h.length, h.normal, p, r));
        SingleProbe(old(nodes), sqrt, origin, dir, Probe(id, h.length, h.normal, p, r));
        ps := [Probe(id, h.length, h.normal, p, r)];
      case _ =>
        assert Probed([]) == [];
    }

    /**
     * collideSphere on node id: the children in list order, skipping the excluded object and
     * everything below it, then the node's own part; it reads the graph and changes nothing.
     */
    method CollideSphere(sqrt: real -> real, id: nat, exclude: Option<nat>, radius: real, c: Collision, fuel: nat)
      returns (r: Collision)
      requires IsSqrt(sqrt) && Valid() && id in nodes
      ensures r == CollideNode(sqrt, nodes, id, exclude, radius, c, fuel)
      decreases fuel
    {
      var below := c;
      if fuel > 0 {
        var rest: nat := fuel - 1;
        var children := nodes[id].children;
        var i := 0;
        while i < |children|
          invariant 0 <= i <= |children|
          invariant below == CollideChildren(sqrt, nodes, children[..i], exclude, radius, c, rest)
        {
          var x := children[i];
          assert children[..i + 1][..i] == children[..i];
          if Some(x) != exclude {
            below := CollideSphere(sqrt, x, exclude, radius, below, rest);
          }
          i := i + 1;
        }
        assert children[..|children|] == children;
        CollideNodeUnfold(sqrt, nodes, id, exclude, radius, c, rest);
      }
      match nodes[id].kind
      case Forest(instances) =>
        r := CollideTrees(sqrt, nodes[id].position, nodes[id].radius, instances, id, radius, below);
      case _ =>
        r := SelfCollide(sqrt, nodes, id, radius, below);
    }
  }
}

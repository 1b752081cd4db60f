/**
 * Eye: the camera. It may follow a scene-graph node (held weakly, by its id), derives its velocity
 * from the distance moved in a frame, and keeps numbered user clipping planes in a key-ordered map
 * whose planes it enables, disables and loads in increasing key order.
 */
module Eye {
  import opened Math3D
  import opened Wrappers

  /** A node's local pose as the eye copies it: its position and rotation relative to its parent. */
  datatype Pose = Pose(position: Vec3, rotation: Quat)

  /** QVector4D::isNull: all four components are zero. */
  predicate IsNull(p: Vec4) {
    p.x == 0.0 && p.y == 0.0 && p.z == 0.0 && p.w == 0.0
  }

  /**
   * The clipping planes as QMap holds them: (plane number, plane) pairs in strictly increasing
   * key order, which is the order every walk over the map visits them in.
   */
  ghost predicate Sorted(planes: seq<(int, Vec4)>) {
    forall i, j :: 0 <= i < j < |planes| ==> planes[i].0 < planes[j].0
  }

  /** QMap::value lookup: the plane stored under k, if any. */
  function Lookup(planes: seq<(int, Vec4)>, k: int): (r: Option<Vec4>)
    ensures r.Some? <==> exists i :: 0 <= i < |planes| && planes[i].0 == k
    ensures r.Some? ==> exists i :: 0 <= i < |planes| && planes[i] == (k, r.value)
  {
    if |planes| == 0 then None
    else if planes[0].0 == k then Some(planes[0].1)
    else
      var r := Lookup(planes[1..], k);
      assert forall i :: 1 <= i < |planes| ==> planes[i] == planes[1..][i - 1];
      assert r.Some? ==> exists i :: 0 <= i < |planes[1..]| && planes[1..][i] == (k, r.value);
      r
  }

  /** mClippingPlanes[n] = plane: the list with plane stored under n, still sorted. */
  function Insert(planes: seq<(int, Vec4)>, n: int, plane: Vec4): (r: seq<(int, Vec4)>)
    requires Sorted(planes)
    ensures Sorted(r) && |r| > 0
    ensures r[0].0 == n || (|planes| > 0 && r[0].0 == planes[0].0)
    ensures forall k :: Lookup(r, k) == if k == n then Some(plane) else Lookup(planes, k)
  {
    if |planes| == 0 then [(n, plane)]
    else if n < planes[0].0 then [(n, plane)] + planes
    else if n == planes[0].0 then [(n, plane)] + planes[1..]
    else
      var rest := Insert(planes[1..], n, plane);
      var r := [planes[0]] + rest;
      assert forall i :: 1 <= i < |r| ==> r[i] == rest[i - 1];
      assert r[1..] == rest;
      r
  }

  /** mClippingPlanes.remove(n): the list without plane n, still sorted. */
  function Remove(planes: seq<(int, Vec4)>, n: int): (r: seq<(int, Vec4)>)
    requires Sorted(planes)
    ensures Sorted(r)
    ensures |r| == 0 || (|planes| > 0 && r[0].0 >= planes[0].0)
    ensures forall k :: Lookup(r, k) == if k == n then None else Lookup(planes, k)
  {
    if |planes| == 0 then []
    else if planes[0].0 == n then
      assert forall i :: 0 <= i < |planes[1..]| ==> planes[1..][i].0 != n by {
        forall i | 0 <= i < |planes[1..]| ensures planes[1..][i].0 != n {
          assert planes[1..][i] == planes[i + 1];
        }
      }
      planes[1..]
    else
      var rest := Remove(planes[1..], n);
      var r := [planes[0]] + rest;
      assert r[1..] == rest;
      r
  }

  /** Storing a plane under a free number and removing it again gives back the same list. */
  lemma {:induction false} InsertThenRemove(planes: seq<(int, Vec4)>, n: int, plane: Vec4)
    requires Sorted(planes) && Lookup(planes, n).None?
    ensures Remove(Insert(planes, n, plane), n) == planes
  {
    if |planes| > 0 && n > planes[0].0 {
      var rest := planes[1..];
      assert Lookup(rest, n).None?;
      InsertThenRemove(rest, n, plane);
      assert Insert(planes, n, plane) == [planes[0]] + Insert(rest, n, plane);
      assert ([planes[0]] + Insert(rest, n, plane))[1..] == Insert(rest, n, plane);
      assert [planes[0]] + rest == planes;
    }
  }

  predicate StrictlyIncreasing(s: seq<int>) {
    forall i, j :: 0 <= i < j < |s| ==> s[i] < s[j]
  }

  /** The plane numbers a walk over the map visits: each stored key once, in increasing order. */
  method KeysInOrder(planes: seq<(int, Vec4)>) returns (keys: seq<int>)
    requires Sorted(planes)
    ensures StrictlyIncreasing(keys)
    ensures forall k :: k in keys <==> Lookup(planes, k).Some?
  {
    keys := [];
    var i := 0;
    while i < |planes|
      invariant 0 <= i <= |planes|
      invariant |keys| == i && forall m :: 0 <= m < i ==> keys[m] == planes[m].0
    {
      keys := keys + [planes[i].0];
      i := i + 1;
    }
    forall k | Lookup(planes, k).Some?
      ensures k in keys
    {
      var m :| 0 <= m < |planes| && planes[m].0 == k;
      assert keys[m] == k;
    }
  }

  class Eye {
    var position: Vec3
    var lastPosition: Vec3
    var velocity: Vec3
    var rotation: Quat
    var scale: Vec3
    var fov: real
    var aspect: real
    var nearPlane: real
    var farPlane: real
    var viewOffset: Vec3
    var perspectiveOffset: Vec3
    /** The id of the node followed; it may have gone away since. */
    var attached: Option<nat>
    var clippingPlanes: seq<(int, Vec4)>

    ghost predicate Valid()
      reads this
    {
      Sorted(clippingPlanes)
    }

    /** A new eye at the origin with identity rotation, unit scale, 60° field of view, aspect 1 and planes at 0.1 and 500. */
    constructor ()
      ensures position == Zero3 && lastPosition == Zero3 && velocity == Zero3 && rotation == IdentityQuat
      ensures scale == Vec3(1.0, 1.0, 1.0) && fov == 60.0 && aspect == 1.0 && nearPlane == 0.1 && farPlane == 500.0
      ensures viewOffset == Zero3 && perspectiveOffset == Zero3
      ensures attached == None && clippingPlanes == []
      ensures Valid()
    {
      position, lastPosition, velocity, rotation := Zero3, Zero3, Zero3, IdentityQuat;
      scale, fov, aspect, nearPlane, farPlane := Vec3(1.0, 1.0, 1.0), 60.0, 1.0, 0.1, 500.0;
      viewOffset, perspectiveOffset := Zero3, Zero3;
      attached, clippingPlanes := None, [];
    }

    /**
     * The copy constructor copies the pose and the projection and view parameters; the followed
     * node, the clipping planes, the velocity and the last position start fresh.
     */
    constructor Copy(other: Eye)
      ensures position == other.position && rotation == other.rotation && scale == other.scale
      ensures fov == other.fov && aspect == other.aspect && nearPlane == other.nearPlane && farPlane == other.farPlane
      ensures viewOffset == other.viewOffset && perspectiveOffset == other.perspectiveOffset
      ensures Valid() && attached == None && clippingPlanes == [] && velocity == Zero3 && lastPosition == Zero3
    {
      position, rotation, scale := other.position, other.rotation, other.scale;
      fov, aspect, nearPlane, farPlane := other.fov, other.aspect, other.nearPlane, other.farPlane;
      viewOffset, perspectiveOffset := other.viewOffset, other.perspectiveOffset;
      attached, clippingPlanes := None, [];
      velocity, lastPosition := Zero3, Zero3;
    }

    /**
     * update: when the followed node still exists, the eye takes its pose; the velocity is the
     * distance moved since the last frame over delta, and the position becomes the last one.
     */
    method Update(delta: real, poseOf: nat -> Option<Pose>)
      requires delta != 0.0
      modifies this`position, this`rotation, this`velocity, this`lastPosition
      ensures var p := if old(attached).Some? then poseOf(old(attached).value) else None;
        (p.Some? ==> position == p.value.position && rotation == p.value.rotation)
        && (p.None? ==> position == old(position) && rotation == old(rotation))
      ensures Add(old(lastPosition), Scale(velocity, delta)) == position
      ensures lastPosition == position
    {
      if attached.Some? {
        var p := poseOf(attached.value);
        if p.Some? {
          position := p.value.position;
          rotation := p.value.rotation;
        }
      }
      velocity := Div(Sub(position, lastPosition), delta);
      lastPosition := position;
    }

    /** setClippingPlane: a null plane removes plane n, any other is stored under n; no other plane changes. */
    method SetClippingPlane(n: int, plane: Vec4)
      requires Valid()
      modifies this`clippingPlanes
      ensures Valid()
      ensures forall k :: Lookup(clippingPlanes, k) ==
                (if k != n then Lookup(old(clippingPlanes), k) else if IsNull(plane) then None else Some(plane))
    {
      if IsNull(plane) {
        clippingPlanes := Remove(clippingPlanes, n);
      } else {
        clippingPlanes := Insert(clippingPlanes, n, plane);
      }
    }

    /** enableClippingPlanes: the plane numbers switched on, each stored key once, in increasing order. */
    method EnableClippingPlanes() returns (enabled: seq<int>)
      requires Valid()
      ensures StrictlyIncreasing(enabled)
      ensures forall k :: k in enabled <==> Lookup(clippingPlanes, k).Some?
    {
      enabled := KeysInOrder(clippingPlanes);
    }

    /** disableClippingPlanes: the plane numbers switched off, each stored key once, in increasing order. */
    method DisableClippingPlanes() returns (disabled: seq<int>)
      requires Valid()
      ensures StrictlyIncreasing(disabled)
      ensures forall k :: k in disabled <==> Lookup(clippingPlanes, k).Some?
    {
      disabled := KeysInOrder(clippingPlanes);
    }

    /** applyClippingPlanes: each stored plane loaded under its number, in increasing order. */
    method ApplyClippingPlanes() returns (loaded: seq<(int, Vec4)>)
      requires Valid()
      ensures forall i, j :: 0 <= i < j < |loaded| ==> loaded[i].0 < loaded[j].0
      ensures forall i :: 0 <= i < |loaded| ==> Lookup(clippingPlanes, loaded[i].0) == Some(loaded[i].1)
      ensures forall k :: Lookup(clippingPlanes, k).Some? ==> exists i :: 0 <= i < |loaded| && loaded[i].0 == k
    {
      loaded := [];
      var i := 0;
      while i < |clippingPlanes|
        invariant 0 <= i <= |clippingPlanes|
        invariant loaded == clippingPlanes[..i]
      {
        loaded := loaded + [clippingPlanes[i]];
        i := i + 1;
      }
      assert loaded == clippingPlanes;
      forall m | 0 <= m < |loaded|
        ensures Lookup(clippingPlanes, loaded[m].0) == Some(loaded[m].1)
      {
        var k := loaded[m].0;
        var j :| 0 <= j < |clippingPlanes| && clippingPlanes[j] == (k, Lookup(clippingPlanes, k).value);
        assert j == m;
      }
    }

    /** attach: the eye follows the node from now on. */
    method Attach(node: nat)
      modifies this`attached
      ensures attached == Some(node)
    {
      attached := Some(node);
    }

    /** detach: the eye follows nothing. */
    method Detach()
      modifies this`attached
      ensures attached == None
    {
      attached := None;
    }
  }
}

/**
 * Vector: reading two or three numbers off the front of a string list, and the
 * Gram-Schmidt step that makes one vector orthogonal to a fixed one.
 */
module Vector {
  import opened Math3D

  /**
   * Vector::orthoNormalize: the part of v orthogonal to `fixed` (assumed unit), normalised,
   * or the zero vector when that part is no longer than FLT_EPSILON.
   */
  function OrthoNormalize(sqrt: real -> real, fixed: Vec3, v: Vec3): (r: Vec3)
    requires IsSqrt(sqrt)
    ensures Length(sqrt, Sub(v, Scale(fixed, Dot(v, fixed)))) <= FltEpsilon ==> r == Zero3
    ensures Length(sqrt, Sub(v, Scale(fixed, Dot(v, fixed)))) > FltEpsilon ==>
              LengthSq(r) == 1.0 && Scale(r, Length(sqrt, Sub(v, Scale(fixed, Dot(v, fixed))))) == Sub(v, Scale(fixed, Dot(v, fixed)))
  {
    var ortho := Sub(v, Scale(fixed, Dot(v, fixed)));
    var length := Length(sqrt, ortho);
    if length <= FltEpsilon then Zero3
    else
      NormalizedIsUnit(ortho, length);
      Div(ortho, length)
  }

  /** With a unit `fixed`, the result is orthogonal to it. */
  lemma OrthoNormalizeIsOrthogonal(sqrt: real -> real, fixed: Vec3, v: Vec3)
    requires IsSqrt(sqrt) && LengthSq(fixed) == 1.0
    ensures Dot(OrthoNormalize(sqrt, fixed, v), fixed) == 0.0
  {
    var d := Dot(v, fixed);
    var ortho := Sub(v, Scale(fixed, d));
    assert Dot(ortho, fixed) == d - d * LengthSq(fixed);
    var length := Length(sqrt, ortho);
    if length > FltEpsilon {
      var r := Div(ortho, length);
      assert r.x * length == ortho.x && r.y * length == ortho.y && r.z * length == ortho.z;
      assert Dot(r, fixed) * length == Dot(ortho, fixed);
    }
  }

  /** A QStringList consumed from the front. */
  class StringList {
    var items: seq<string>

    constructor (items: seq<string>)
      ensures this.items == items
    {
      this.items := items;
    }

    /** Vector::takeFirstFromStringList2D: removes the first two entries and returns them as (x, y). */
    method TakeFirst2D(toFloat: string -> real) returns (v: Vec2)
      requires |items| >= 2
      modifies this
      ensures items == old(items)[2..]
      ensures v == Vec2(toFloat(old(items)[0]), toFloat(old(items)[1]))
    {
      var x := toFloat(items[0]);
      items := items[1..];
      var y := toFloat(items[0]);
      items := items[1..];
      v := Vec2(x, y);
    }

    /** Vector::takeFirstFromStringList3D: removes the first three entries and returns them as (x, y, z). */
    method TakeFirst3D(toFloat: string -> real) returns (v: Vec3)
      requires |items| >= 3
      modifies this
      ensures items == old(items)[3..]
      ensures v == Vec3(toFloat(old(items)[0]), toFloat(old(items)[1]), toFloat(old(items)[2]))
    {
      var x := toFloat(items[0]);
      items := items[1..];
      var y := toFloat(items[0]);
      items := items[1..];
      var z := toFloat(items[0]);
      items := items[1..];
      v := Vec3(x, y, z);
    }
  }
}

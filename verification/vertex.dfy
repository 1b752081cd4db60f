/**
 * Vertex: the three interleaved vertex layouts and their equality, which is what
 * de-duplication of model vertices compares.
 */
module Vertex {
  import opened Math3D

  datatype VertexP3f = VertexP3f(position: Vec3)
  datatype VertexP3fT2f = VertexP3fT2f(position: Vec3, texCoord: Vec2)
  datatype VertexP3fN3fT2f = VertexP3fN3fT2f(position: Vec3, normal: Vec3, texCoord: Vec2)

  const Zero2: Vec2 := Vec2(0.0, 0.0)

  /** Default constructors: everything zero except the full vertex's normal, which points up. */
  function DefaultP3f(): (v: VertexP3f)
    ensures v.position == Zero3
  {
    VertexP3f(Zero3)
  }

  function DefaultP3fT2f(): (v: VertexP3fT2f)
    ensures v.position == Zero3 && v.texCoord == Zero2
  {
    VertexP3fT2f(Zero3, Zero2)
  }

  function DefaultP3fN3fT2f(): (v: VertexP3fN3fT2f)
    ensures v.position == Zero3 && v.normal == UnitY && v.texCoord == Zero2
  {
    VertexP3fN3fT2f(Zero3, UnitY, Zero2)
  }

  /** operator== of VertexP3f: the positions agree, which is exactly value equality. */
  predicate EqualP3f(a: VertexP3f, b: VertexP3f)
    ensures EqualP3f(a, b) <==> a == b
  {
    a.position == b.position
  }

  /** operator== of VertexP3fT2f: position and texture coordinate agree. */
  predicate EqualP3fT2f(a: VertexP3fT2f, b: VertexP3fT2f)
    ensures EqualP3fT2f(a, b) <==> a == b
  {
    a.position == b.position && a.texCoord == b.texCoord
  }

  /** operator== of VertexP3fN3fT2f: position, normal and texture coordinate agree. */
  predicate EqualP3fN3fT2f(a: VertexP3fN3fT2f, b: VertexP3fN3fT2f)
    ensures EqualP3fN3fT2f(a, b) <==> a == b
  {
    a.position == b.position && a.normal == b.normal && a.texCoord == b.texCoord
  }

  /** operator!= of each type is the negation of its operator==. */
  predicate NotEqualP3f(a: VertexP3f, b: VertexP3f)
    ensures NotEqualP3f(a, b) <==> a != b
  {
    !EqualP3f(a, b)
  }

  predicate NotEqualP3fT2f(a: VertexP3fT2f, b: VertexP3fT2f)
    ensures NotEqualP3fT2f(a, b) <==> a != b
  {
    !EqualP3fT2f(a, b)
  }

  predicate NotEqualP3fN3fT2f(a: VertexP3fN3fT2f, b: VertexP3fN3fT2f)
    ensures NotEqualP3fN3fT2f(a, b) <==> a != b
  {
    !EqualP3fN3fT2f(a, b)
  }
}

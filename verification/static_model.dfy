/**
 * StaticModel: the Wavefront OBJ reader. Logical lines (a trailing backslash continues a line)
 * are dispatched on their first word: `v`, `vt` and `vn` append to the attribute lists, `f`
 * builds a face from 1-based `position/texCoord/normal` index triples, and `usemtl` selects the
 * material of the faces that follow. The faces are then flattened into a de-duplicated vertex
 * list, an index list with one entry per face point, and parts: runs of indices that share a
 * material, which tile the index list.
 */
module StaticModel {
  import opened Math3D
  import opened Wrappers
  import opened Vertex
  import opened Text
  import Vector
  import opened Sequences

  type V = VertexP3fN3fT2f

  // ---------------------------------------------------------------- OBJ keywords

  const CommentChar: char := '#'
  const LineSplitChar: char := '\\'
  const FaceKeyword: string := "f"
  const GroupKeyword: string := "g"
  const MaterialLibKeyword: string := "mtllib"
  const MaterialUseKeyword: string := "usemtl"
  const SmoothingKeyword: string := "s"
  const VertexKeyword: string := "v"
  const NormalKeyword: string := "vn"
  const TexCoordKeyword: string := "vt"

  /** The OpenGL primitive modes a face size selects. */
  const GlTriangles: int := 4
  const GlQuads: int := 7

  // ---------------------------------------------------------------- faces

  /** The attribute lists read so far, which face indices refer to. */
  datatype Lists = Lists(positions: seq<Vec3>, texCoords: seq<Vec2>, normals: seq<Vec3>)

  datatype Face = Face(points: seq<V>, material: string)

  /** The k-th '/'-separated index of a face field, if the field has that many. */
  function IndexText(field: string, k: nat): Option<string> {
    var parts := Split(field, '/');
    if k < |parts| then Some(parts[k]) else None
  }

  /** A missing index, or one that reads as 0 (empty or not a number), leaves the attribute alone. */
  predicate Skips(index: Option<string>) {
    index.None? || ToInt(index.value) == 0
  }

  /** An index that is skipped or names an element of a list of n. */
  predicate IndexInRange(index: Option<string>, n: nat) {
    Skips(index) || 1 <= ToInt(index.value) <= n
  }

  /**
   * One attribute of a face point: the index is 1-based; a skipped index keeps the current
   * value; any other index must name an element of the list (QVector::at is undefined outside it).
   */
  function Attribute<T>(current: T, index: Option<string>, list: seq<T>): (r: Option<T>)
    ensures Skips(index) ==> r == Some(current)
    ensures !Skips(index) ==> (r.Some? <==> 1 <= ToInt(index.value) <= |list|)
    ensures !Skips(index) && r.Some? ==> r.value == list[ToInt(index.value) - 1]
  {
    if index.None? then Some(current)
    else
      var pos := ToInt(index.value) - 1;
      if pos == -1 then Some(current)
      else if 0 <= pos < |list| then Some(list[pos])
      else None
  }

  /** Every index of the field is skipped or in range of its list. */
  predicate FieldInRange(field: string, l: Lists) {
    IndexInRange(IndexText(field, 0), |l.positions|)
    && IndexInRange(IndexText(field, 1), |l.texCoords|)
    && IndexInRange(IndexText(field, 2), |l.normals|)
  }

  /** The vertex after one field: position, texture coordinate and normal in that order. */
  function ApplyField(v: V, field: string, l: Lists): (r: Option<V>)
    ensures r.Some? <==> FieldInRange(field, l)
  {
    var p := Attribute(v.position, IndexText(field, 0), l.positions);
    var t := Attribute(v.texCoord, IndexText(field, 1), l.texCoords);
    var n := Attribute(v.normal, IndexText(field, 2), l.normals);
    if p.Some? && t.Some? && n.Some? then Some(VertexP3fN3fT2f(p.value, n.value, t.value)) else None
  }

  /** The points of a face whose vertex starts as v: each field updates the vertex and appends it. */
  function FacePoints(v: V, fields: seq<string>, l: Lists): (r: Option<seq<V>>)
    ensures r.Some? <==> forall i :: 0 <= i < |fields| ==> FieldInRange(fields[i], l)
    ensures r.Some? ==> |r.value| == |fields|
    decreases |fields|
  {
    if |fields| == 0 then Some([])
    else
      var w := ApplyField(v, fields[0], l);
      assert forall i :: 1 <= i < |fields| ==> fields[i] == fields[1..][i - 1];
      if w.None? then None
      else Prepend([w.value], FacePoints(w.value, fields[1..], l))
  }

  function Prepend<T>(prefix: seq<T>, r: Option<seq<T>>): Option<seq<T>> {
    if r.Some? then Some(prefix + r.value) else None
  }

  /**
   * The Face constructor: one point per field from the default vertex on, and the current
   * material, which is only assigned inside the loop, so a face without fields has none.
   */
  function FaceOf(fields: seq<string>, material: string, l: Lists): (r: Option<Face>)
    ensures r.Some? <==> forall i :: 0 <= i < |fields| ==> FieldInRange(fields[i], l)
    ensures r.Some? ==> |r.value.points| == |fields|
    ensures r.Some? ==> r.value.material == if |fields| > 0 then material else ""
  {
    var points := FacePoints(DefaultP3fN3fT2f(), fields, l);
    if points.Some? then Some(Face(points.value, if |fields| > 0 then material else "")) else None
  }

  /** Each point of a face is the one before it (the default vertex for the first) updated by its field. */
  lemma {:induction false} FacePointAt(v: V, fields: seq<string>, l: Lists, k: nat)
    requires FacePoints(v, fields, l).Some? && k < |fields|
    ensures ApplyField(if k == 0 then v else FacePoints(v, fields, l).value[k - 1], fields[k], l)
            == Some(FacePoints(v, fields, l).value[k])
    decreases k
  {
    var w := ApplyField(v, fields[0], l).value;
    var rest := FacePoints(w, fields[1..], l);
    assert FacePoints(v, fields, l).value == [w] + rest.value;
    if k > 0 {
      FacePointAt(w, fields[1..], l, k - 1);
      assert fields[1..][k - 1] == fields[k];
    }
  }

  /**
   * A skipped index keeps the previous point's attribute, because the same vertex variable is
   * carried from field to field; an index in range takes that list element.
   */
  lemma SkippedIndexKeepsPrevious(fields: seq<string>, l: Lists, k: nat)
    requires FacePoints(DefaultP3fN3fT2f(), fields, l).Some? && k < |fields|
    ensures var points := FacePoints(DefaultP3fN3fT2f(), fields, l).value;
            var prev := if k == 0 then DefaultP3fN3fT2f() else points[k - 1];
            (Skips(IndexText(fields[k], 0)) ==> points[k].position == prev.position)
            && (Skips(IndexText(fields[k], 1)) ==> points[k].texCoord == prev.texCoord)
            && (Skips(IndexText(fields[k], 2)) ==> points[k].normal == prev.normal)
            && (!Skips(IndexText(fields[k], 0)) ==>
                  points[k].position == l.positions[ToInt(IndexText(fields[k], 0).value) - 1])
  {
    FacePointAt(DefaultP3fN3fT2f(), fields, l, k);
  }

  /** One field consumed: its point goes in front of the points of the remaining fields. */
  lemma FacePointsStep(points: seq<V>, v: V, fields: seq<string>, l: Lists)
    requires |fields| > 0 && ApplyField(v, fields[0], l).Some?
    ensures var w := ApplyField(v, fields[0], l).value;
            Prepend(points, FacePoints(v, fields, l)) == Prepend(points + [w], FacePoints(w, fields[1..], l))
  {
    var w := ApplyField(v, fields[0], l).value;
    var rest := FacePoints(w, fields[1..], l);
    if rest.Some? {
      assert points + ([w] + rest.value) == (points + [w]) + rest.value;
    }
  }

  /** The Face constructor: the fields consumed front to back, each updating the reused vertex. */
  method NewFace(fields: seq<string>, material: string, l: Lists) returns (r: Option<Face>)
    ensures r == FaceOf(fields, material, l)
  {
    var vertex := DefaultP3fN3fT2f();
    var points: seq<V> := [];
    var faceMaterial := "";
    var rest := fields;
    if FacePoints(vertex, rest, l).Some? {
      assert points + FacePoints(vertex, rest, l).value == FacePoints(vertex, rest, l).value;
    }
    while |rest| > 0
      invariant |rest| <= |fields| && rest == fields[|fields| - |rest|..]
      invariant Prepend(points, FacePoints(vertex, rest, l)) == FacePoints(DefaultP3fN3fT2f(), fields, l)
      invariant faceMaterial == if |rest| < |fields| then material else ""
    {
      var next := ApplyField(vertex, rest[0], l);
      if next.None? {
        return None;
      }
      FacePointsStep(points, vertex, rest, l);
      vertex := next.value;
      points := points + [vertex];
      faceMaterial := material;
      rest := rest[1..];
    }
    assert points + [] == points;
    r := Some(Face(points, faceMaterial));
  }

  // ---------------------------------------------------------------- parts

  /** A run of indices drawn with one material; no material when the name is empty. */
  datatype Part = Part(start: int, count: int, material: Option<string>)

  /** The Part constructor: the part of `count` indices that ends where `current` is. */
  function MakePart(current: nat, count: nat, material: string): (p: Part)
    ensures p.start + p.count == current && p.count == count
    ensures p.material.Some? <==> material != ""
    ensures p.material.Some? ==> p.material.value == material
  {
    Part(current - count, count, if material == "" then None else Some(material))
  }

  /** The primitive mode of a face of n points: triangles, quads, or 0 (logged as unsupported). */
  function ModeOf(n: nat): (m: int)
    ensures m != 0 <==> n == 3 || n == 4
  {
    if n == 3 then GlTriangles else if n == 4 then GlQuads else 0
  }

  /** Every face point, face after face. */
  function AllPoints(faces: seq<Face>): (r: seq<V>)
    ensures |faces| > 0 ==> |r| >= |faces[|faces| - 1].points|
  {
    if |faces| == 0 then [] else AllPoints(faces[..|faces| - 1]) + faces[|faces| - 1].points
  }

  /** What generateParts holds after some faces: closed parts, last material, points so far, points since the last change. */
  datatype Progress = Progress(closed: seq<Part>, lastMat: string, current: nat, count: nat)

  function PartsAfter(faces: seq<Face>): Progress {
    if |faces| == 0 then Progress([], "", 0, 0)
    else
      var p := PartsAfter(faces[..|faces| - 1]);
      var f := faces[|faces| - 1];
      if f.material != p.lastMat then
        Progress(p.closed + [MakePart(p.current, p.count, p.lastMat)], f.material, p.current + |f.points|, |f.points|)
      else Progress(p.closed, p.lastMat, p.current + |f.points|, p.count + |f.points|)
  }

  /** The parts generateParts leaves: the closed ones and a final part for the last face's material. */
  function ExpectedParts(faces: seq<Face>): seq<Part>
    requires |faces| > 0
  {
    var p := PartsAfter(faces);
    p.closed + [MakePart(p.current, p.count, faces[|faces| - 1].material)]
  }

  /** The progress, mode and points after one face more than a prefix. */
  lemma FaceStep(faces: seq<Face>, i: nat, mode: int)
    requires i < |faces|
    ensures var p := PartsAfter(faces[..i]);
            var f := faces[i];
            PartsAfter(faces[..i + 1])
            == if f.material != p.lastMat then
                 Progress(p.closed + [MakePart(p.current, p.count, p.lastMat)], f.material, p.current + |f.points|, |f.points|)
               else Progress(p.closed, p.lastMat, p.current + |f.points|, p.count + |f.points|)
    ensures var m := ModeAfter(mode, faces[..i]);
            ModeAfter(mode, faces[..i + 1]) == if m == 0 then ModeOf(|faces[i].points|) else m
    ensures AllPoints(faces[..i + 1]) == AllPoints(faces[..i]) + faces[i].points
  {
    assert faces[..i + 1][..i] == faces[..i] && faces[..i + 1][i] == faces[i];
  }

  /** The mode after some faces: the first supported face size fixes it, later sizes only get logged. */
  function ModeAfter(mode: int, faces: seq<Face>): int {
    if |faces| == 0 then mode
    else
      var m := ModeAfter(mode, faces[..|faces| - 1]);
      if m == 0 then ModeOf(|faces[|faces| - 1].points|) else m
  }

  /** How often the material changes from one face to the next, starting from no material. */
  function Changes(faces: seq<Face>): nat {
    if |faces| == 0 then 0
    else
      var before := if |faces| == 1 then "" else faces[|faces| - 2].material;
      Changes(faces[..|faces| - 1]) + (if faces[|faces| - 1].material != before then 1 else 0)
  }

  /** The parts lie end to end from index 0 and together cover exactly `total` indices. */
  ghost predicate Tiles(parts: seq<Part>, total: int) {
    |parts| > 0 && parts[0].start == 0
    && (forall j :: 0 <= j < |parts| ==> parts[j].count >= 0)
    && (forall j :: 0 <= j < |parts| - 1 ==> parts[j + 1].start == parts[j].start + parts[j].count)
    && parts[|parts| - 1].start + parts[|parts| - 1].count == total
  }

  /**
   * What generateParts keeps true face after face: the closed parts lie end to end from 0 up
   * to where the open run starts, one closed per material change, the first without a material.
   */
  ghost predicate Progressed(faces: seq<Face>) {
    var p := PartsAfter(faces);
    p.count <= p.current && p.current == |AllPoints(faces)|
    && p.lastMat == (if |faces| == 0 then "" else faces[|faces| - 1].material)
    && |p.closed| == Changes(faces)
    && (|p.closed| == 0 ==> p.count == p.current && p.lastMat == "")
    && (|p.closed| > 0 ==> Tiles(p.closed, p.current - p.count) && p.closed[0].material == None)
  }

  /** One more part, starting where the tiled ones end, keeps the tiling. */
  lemma TilesExtend(closed: seq<Part>, part: Part)
    requires part.count >= 0
    requires |closed| == 0 ==> part.start == 0
    requires |closed| > 0 ==> Tiles(closed, part.start)
    ensures Tiles(closed + [part], part.start + part.count)
  {
    var parts := closed + [part];
    assert parts[..|closed|] == closed && parts[|closed|] == part;
  }

  lemma {:induction false} ProgressInvariant(faces: seq<Face>)
    ensures Progressed(faces)
  {
    if |faces| > 0 {
      ProgressInvariant(faces[..|faces| - 1]);
      ProgressStep(faces);
    }
  }

  /** One face more keeps the invariant. */
  lemma ProgressStep(faces: seq<Face>)
    requires |faces| > 0 && Progressed(faces[..|faces| - 1])
    ensures Progressed(faces)
  {
    var init := faces[..|faces| - 1];
    var q := PartsAfter(init);
    var f := faces[|faces| - 1];
    if |init| > 0 {
      assert init[|init| - 1] == faces[|faces| - 2];
    }
    if f.material != q.lastMat {
      var part := MakePart(q.current, q.count, q.lastMat);
      TilesExtend(q.closed, part);
      if |q.closed| == 0 {
        assert part.material == None;
      }
    }
  }

  /**
   * The parts tile the index list: one more part than material changes, the first without a
   * material (empty when the first face already has one), the last with the last face's material.
   */
  lemma PartsTile(faces: seq<Face>)
    requires |faces| > 0
    ensures var parts := ExpectedParts(faces);
            Tiles(parts, |AllPoints(faces)|)
            && |parts| == 1 + Changes(faces)
            && parts[0].material == None
            && (faces[0].material != "" ==> parts[0].count == 0)
            && parts[|parts| - 1].material == MakePart(0, 0, faces[|faces| - 1].material).material
  {
    ProgressInvariant(faces);
    var p := PartsAfter(faces);
    var last := MakePart(p.current, p.count, faces[|faces| - 1].material);
    TilesExtend(p.closed, last);
    if faces[0].material != "" {
      FirstChangeClosesEmptyPart(faces);
    }
    if |p.closed| == 0 {
      NoChangeMeansNoMaterial(faces);
    }
  }

  /** When the first face has a material, the first part is closed before any point is counted. */
  lemma {:induction false} FirstChangeClosesEmptyPart(faces: seq<Face>)
    requires |faces| > 0 && faces[0].material != ""
    ensures |PartsAfter(faces).closed| > 0 && PartsAfter(faces).closed[0].count == 0
  {
    if |faces| > 1 {
      var init := faces[..|faces| - 1];
      assert init[0] == faces[0];
      FirstChangeClosesEmptyPart(init);
    }
  }

  /** Without a material change every face has no material. */
  lemma {:induction false} NoChangeMeansNoMaterial(faces: seq<Face>)
    requires |PartsAfter(faces).closed| == 0
    ensures forall i :: 0 <= i < |faces| ==> faces[i].material == ""
  {
    if |faces| > 0 {
      var init := faces[..|faces| - 1];
      ProgressInvariant(init);
      NoChangeMeansNoMaterial(init);
      assert forall i :: 0 <= i < |init| ==> init[i] == faces[i];
    }
  }

  /** A mode once set stays; from 0, the first face of three or four points sets it. */
  lemma {:induction false} ModeFromFirstFace(mode: int, faces: seq<Face>)
    ensures mode != 0 ==> ModeAfter(mode, faces) == mode
    ensures mode == 0 && |faces| > 0 && ModeOf(|faces[0].points|) != 0 ==>
              ModeAfter(mode, faces) == ModeOf(|faces[0].points|)
  {
    if |faces| > 0 {
      var init := faces[..|faces| - 1];
      ModeFromFirstFace(mode, init);
      if |init| > 0 {
        assert init[0] == faces[0];
      }
    }
  }

  /** QVector::indexOf: the first position holding v, or -1. */
  function IndexOf(s: seq<V>, v: V): (r: int)
    ensures -1 <= r < |s|
    ensures r == -1 <==> v !in s
    ensures r >= 0 ==> s[r] == v && v !in s[..r]
  {
    if |s| == 0 then -1
    else if s[0] == v then 0
    else
      var k := IndexOf(s[1..], v);
      assert v in s[1..] ==> v in s;
      assert v in s ==> v == s[0] || v in s[1..];
      if k == -1 then -1
      else
        assert s[..k + 1] == [s[0]] + s[1..][..k];
        k + 1
  }

  /** From `offset` on, the index list names the points: each index is in range and the vertex there is the point. */
  ghost predicate Names(vertices: seq<V>, indices: seq<int>, offset: nat, points: seq<V>) {
    offset + |points| <= |indices|
    && forall j :: offset <= j < offset + |points| ==> 0 <= indices[j] < |vertices| && vertices[indices[j]] == points[j - offset]
  }

  /** Appending to either list keeps what the indices already name. */
  lemma NamesGrow(vs: seq<V>, ixs: seq<int>, vs2: seq<V>, ixs2: seq<int>, offset: nat, points: seq<V>)
    requires Names(vs, ixs, offset, points)
    requires |vs| <= |vs2| && vs2[..|vs|] == vs && |ixs| <= |ixs2| && ixs2[..|ixs|] == ixs
    ensures Names(vs2, ixs2, offset, points)
  {
    forall j | offset <= j < offset + |points|
      ensures 0 <= ixs2[j] < |vs2| && vs2[ixs2[j]] == points[j - offset]
    {
      var x := ixs[j];
      assert ixs2[j] == ixs2[..|ixs|][j] == x;
      assert vs2[x] == vs2[..|vs|][x];
    }
  }

  /** Two runs of named points side by side name their concatenation. */
  lemma NamesAppend(vs: seq<V>, ixs: seq<int>, offset: nat, a: seq<V>, b: seq<V>)
    requires Names(vs, ixs, offset, a) && Names(vs, ixs, offset + |a|, b)
    ensures Names(vs, ixs, offset, a + b)
  {
    forall j | offset <= j < offset + |a + b|
      ensures 0 <= ixs[j] < |vs| && vs[ixs[j]] == (a + b)[j - offset]
    {
      if j < offset + |a| {
        assert (a + b)[j - offset] == a[j - offset];
      } else {
        assert (a + b)[j - offset] == b[j - (offset + |a|)];
      }
    }
  }

  /** A prefix of a prefix is a prefix. */
  lemma Grown<T>(a: seq<T>, b: seq<T>, c: seq<T>)
    requires |a| <= |b| && b[..|a|] == a
    requires |b| <= |c| && c[..|b|] == b
    ensures |a| <= |c| && c[..|a|] == a
  {
    assert c[..|a|] == c[..|b|][..|a|];
  }

  /** Every vertex from position n on is one of the points. */
  ghost predicate AddedFrom(vertices: seq<V>, n: nat, points: seq<V>) {
    forall j :: n <= j < |vertices| ==> vertices[j] in points
  }

  /** Vertices added for more points extend what was added before. */
  lemma AddedFromGrow(vs: seq<V>, vs2: seq<V>, n: nat, before: seq<V>, points: seq<V>)
    requires AddedFrom(vs, n, before) && AddedFrom(vs2, |vs|, points)
    requires |vs| <= |vs2| && vs2[..|vs|] == vs
    ensures AddedFrom(vs2, n, before + points)
  {
    forall j | n <= j < |vs2|
      ensures vs2[j] in before + points
    {
      if j < |vs| {
        assert vs2[j] == vs2[..|vs|][j];
      }
    }
  }

  /**
   * What de-duplicating points into the lists does: the old vertices and indices stay in front,
   * distinct vertices stay distinct, every added vertex is one of the points, and one index per
   * point names it.
   */
  ghost predicate Built(vertices: seq<V>, indices: seq<int>, v0: seq<V>, i0: seq<int>, points: seq<V>) {
    |vertices| >= |v0| && vertices[..|v0|] == v0
    && (Distinct(v0) ==> Distinct(vertices))
    && AddedFrom(vertices, |v0|, points)
    && |indices| == |i0| + |points| && indices[..|i0|] == i0
    && Names(vertices, indices, |i0|, points)
  }

  /** Adding points after points is adding their concatenation. */
  lemma BuiltAppend(v0: seq<V>, i0: seq<int>, vs: seq<V>, ixs: seq<int>, vertices: seq<V>, indices: seq<int>, before: seq<V>, points: seq<V>)
    requires Built(vs, ixs, v0, i0, before) && Built(vertices, indices, vs, ixs, points)
    ensures Built(vertices, indices, v0, i0, before + points)
  {
    Grown(v0, vs, vertices);
    Grown(i0, ixs, indices);
    AddedFromGrow(vs, vertices, |v0|, before, points);
    NamesGrow(vs, ixs, vertices, indices, |i0|, before);
    NamesAppend(vertices, indices, |i0|, before, points);
  }


  // ---------------------------------------------------------------- logical lines

  /**
   * The continuation loop of parse: while the line ends in a backslash, the backslash is cut
   * and, unless the input is exhausted, the next trimmed line is appended.
   */
  function Continue(line: string, lines: seq<string>, j: nat): (r: (string, nat))
    requires j <= |lines|
    ensures j <= r.1 <= |lines|
    ensures |r.0| > 0 && r.0[|r.0| - 1] == LineSplitChar ==> r.1 == |lines|
    ensures (|line| == 0 || !IsSpace(line[0])) ==> (|r.0| == 0 || !IsSpace(r.0[0]))
    decreases |lines| - j, |line|
  {
    if |line| > 0 && line[|line| - 1] == LineSplitChar then
      var cut := line[..|line| - 1];
      if j == |lines| then
        assert |cut| > 0 ==> cut[0] == line[0];
        (cut, j)
      else
        var joined := cut + Trim(lines[j]);
        assert |cut| > 0 ==> joined[0] == line[0];
        Continue(joined, lines, j + 1)
    else (line, j)
  }

  /** One logical line starting at line i, and the index of the first line after it. */
  function LogicalLine(lines: seq<string>, i: nat): (r: (string, nat))
    requires i < |lines|
    ensures i < r.1 <= |lines|
    ensures |r.0| == 0 || !IsSpace(r.0[0])
  {
    Continue(Trim(lines[i]), lines, i + 1)
  }

  /** The logical lines of the input from line i on: each empty or starting with a non-space character. */
  function LogicalLines(lines: seq<string>, i: nat): (r: seq<string>)
    requires i <= |lines|
    ensures |r| <= |lines| - i
    ensures forall k :: 0 <= k < |r| ==> |r[k]| == 0 || !IsSpace(r[k][0])
    decreases |lines| - i
  {
    if i == |lines| then []
    else
      var (line, next) := LogicalLine(lines, i);
      [line] + LogicalLines(lines, next)
  }

  /** Reads one logical line: the trimmed line, continued while it ends in a backslash. */
  method ReadLogicalLine(lines: seq<string>, i: nat) returns (line: string, next: nat)
    requires i < |lines|
    ensures (line, next) == LogicalLine(lines, i)
  {
    line := Trim(lines[i]);
    next := i + 1;
    while |line| > 0 && line[|line| - 1] == LineSplitChar
      invariant i < next <= |lines|
      invariant Continue(line, lines, next) == LogicalLine(lines, i)
      decreases |lines| - next, |line|
    {
      line := line[..|line| - 1];
      if next == |lines| {
        break;
      }
      line := line + Trim(lines[next]);
      next := next + 1;
    }
  }

  // ---------------------------------------------------------------- keyword dispatch

  /** What parse has collected: the attribute lists, the faces and the current material. */
  datatype Obj = Obj(lists: Lists, faces: seq<Face>, material: string)

  const EmptyObj: Obj := Obj(Lists([], [], []), [], "")

  /** Comment and empty lines are skipped before anything else. */
  predicate IsBlank(line: string) {
    |line| == 0 || line[0] == CommentChar
  }

  /** The first word of a line, which selects what the line does. */
  function Keyword(line: string): string {
    var words := Words(line);
    if |words| == 0 then "" else words[0]
  }

  /**
   * generateMaterialName: the material file named after the model's base name and the first
   * field, when that file exists, else no material.
   */
  function MaterialName(baseName: string, field: string, exists_: string -> bool): (name: string)
    ensures name == "" || name == baseName + "_" + field
    ensures name != "" <==> exists_(baseName + "_" + field)
  {
    if exists_(baseName + "_" + field) then baseName + "_" + field else ""
  }

  /**
   * One logical line of parse. None where the code is undefined: a keyword with too few numbers,
   * a face index out of range, usemtl or an unknown keyword without a field after it.
   */
  function Step(o: Obj, line: string, toFloat: string -> real, baseName: string, exists_: string -> bool): (r: Option<Obj>)
    ensures IsBlank(line) ==> r == Some(o)
    ensures !IsBlank(line) && Keyword(line) in {GroupKeyword, SmoothingKeyword, MaterialLibKeyword} ==> r == Some(o)
    ensures !IsBlank(line) && Keyword(line) == VertexKeyword ==> (r.Some? <==> |Words(line)| >= 4)
    ensures !IsBlank(line) && Keyword(line) == TexCoordKeyword ==> (r.Some? <==> |Words(line)| >= 3)
    ensures !IsBlank(line) && Keyword(line) == NormalKeyword ==> (r.Some? <==> |Words(line)| >= 4)
    ensures r.Some? ==> |r.value.faces| == |o.faces| + (if !IsBlank(line) && Keyword(line) == FaceKeyword then 1 else 0)
    ensures r.Some? ==> r.value.faces[..|o.faces|] == o.faces
    ensures r.Some? ==> |r.value.lists.positions| == |o.lists.positions| + (if !IsBlank(line) && Keyword(line) == VertexKeyword then 1 else 0)
    ensures r.Some? ==> |r.value.lists.texCoords| == |o.lists.texCoords| + (if !IsBlank(line) && Keyword(line) == TexCoordKeyword then 1 else 0)
    ensures r.Some? ==> |r.value.lists.normals| == |o.lists.normals| + (if !IsBlank(line) && Keyword(line) == NormalKeyword then 1 else 0)
    ensures (r.Some? && !IsBlank(line) && Keyword(line) == FaceKeyword ==>
              |r.value.faces[|o.faces|].points| == |Words(line)| - 1)
    ensures (r.Some? && (IsBlank(line) || Keyword(line) != MaterialUseKeyword) ==>
              r.value.material == o.material)
  {
    if IsBlank(line) then Some(o)
    else
      var words := Words(line);
      if |words| == 0 then None
      else
        var keyword := words[0];
        var fields := words[1..];
        var l := o.lists;
        if keyword == GroupKeyword || keyword == SmoothingKeyword || keyword == MaterialLibKeyword then Some(o)
        else if keyword == VertexKeyword then
          if |fields| < 3 then None
          else Some(o.(lists := l.(positions := l.positions + [Vec3(toFloat(fields[0]), toFloat(fields[1]), toFloat(fields[2]))])))
        else if keyword == TexCoordKeyword then
          if |fields| < 2 then None
          else Some(o.(lists := l.(texCoords := l.texCoords + [Vec2(toFloat(fields[0]), toFloat(fields[1]))])))
        else if keyword == NormalKeyword then
          if |fields| < 3 then None
          else Some(o.(lists := l.(normals := l.normals + [Vec3(toFloat(fields[0]), toFloat(fields[1]), toFloat(fields[2]))])))
        else if keyword == FaceKeyword then
          var face := FaceOf(fields, o.material, l);
          if face.None? then None
          else
            assert (o.faces + [face.value])[..|o.faces|] == o.faces;
            Some(o.(faces := o.faces + [face.value]))
        else if keyword == MaterialUseKeyword then
          if |fields| == 0 then None else Some(o.(material := MaterialName(baseName, fields[0], exists_)))
        else if |fields| == 0 then None
        else Some(o)
  }

  /** The logical lines read one after another; None as soon as one is undefined. */
  function Fold(o: Obj, ls: seq<string>, toFloat: string -> real, baseName: string, exists_: string -> bool): Option<Obj>
    decreases |ls|
  {
    if |ls| == 0 then Some(o)
    else
      var r := Step(o, ls[0], toFloat, baseName, exists_);
      if r.None? then None else Fold(r.value, ls[1..], toFloat, baseName, exists_)
  }

  /** How many logical lines carry the keyword. */
  function Count(ls: seq<string>, keyword: string): nat {
    if |ls| == 0 then 0
    else (if !IsBlank(ls[0]) && Keyword(ls[0]) == keyword then 1 else 0) + Count(ls[1..], keyword)
  }

  /**
   * Dispatch on the first word: a file that reads completely has exactly one face per `f` line,
   * one position per `v` line, one texture coordinate per `vt` line and one normal per `vn`
   * line, and the faces collected before are kept in order.
   */
  lemma {:induction false} FoldCounts(o: Obj, ls: seq<string>, toFloat: string -> real, baseName: string, exists_: string -> bool)
    requires Fold(o, ls, toFloat, baseName, exists_).Some?
    ensures var r := Fold(o, ls, toFloat, baseName, exists_).value;
            |r.faces| == |o.faces| + Count(ls, FaceKeyword)
            && |r.lists.positions| == |o.lists.positions| + Count(ls, VertexKeyword)
            && |r.lists.texCoords| == |o.lists.texCoords| + Count(ls, TexCoordKeyword)
            && |r.lists.normals| == |o.lists.normals| + Count(ls, NormalKeyword)
            && r.faces[..|o.faces|] == o.faces
    decreases |ls|
  {
    if |ls| > 0 {
      var s := Step(o, ls[0], toFloat, baseName, exists_).value;
      FoldCounts(s, ls[1..], toFloat, baseName, exists_);
      var r := Fold(o, ls, toFloat, baseName, exists_).value;
      assert r.faces[..|s.faces|][..|o.faces|] == r.faces[..|o.faces|];
    }
  }

  /** The whole file: its logical lines folded from nothing collected. */
  function ReadAll(lines: seq<string>, toFloat: string -> real, baseName: string, exists_: string -> bool): Option<Obj> {
    Fold(EmptyObj, LogicalLines(lines, 0), toFloat, baseName, exists_)
  }

  /** One logical line of parse, the field list consumed the way the code consumes it. */
  method Dispatch(o: Obj, line: string, toFloat: string -> real, baseName: string, exists_: string -> bool)
    returns (r: Option<Obj>)
    ensures r == Step(o, line, toFloat, baseName, exists_)
  {
    if IsBlank(line) {
      return Some(o);
    }
    var words := Words(line);
    if |words| == 0 {
      return None;
    }
    var keyword := words[0];
    var fields := new Vector.StringList(words[1..]);
    var l := o.lists;
    if keyword == GroupKeyword || keyword == SmoothingKeyword || keyword == MaterialLibKeyword {
      r := Some(o);
    } else if keyword == VertexKeyword {
      if |fields.items| < 3 {
        return None;
      }
      var p := fields.TakeFirst3D(toFloat);
      r := Some(o.(lists := l.(positions := l.positions + [p])));
    } else if keyword == TexCoordKeyword {
      if |fields.items| < 2 {
        return None;
      }
      var t := fields.TakeFirst2D(toFloat);
      r := Some(o.(lists := l.(texCoords := l.texCoords + [t])));
    } else if keyword == NormalKeyword {
      if |fields.items| < 3 {
        return None;
      }
      var n := fields.TakeFirst3D(toFloat);
      r := Some(o.(lists := l.(normals := l.normals + [n])));
    } else if keyword == FaceKeyword {
      var face := NewFace(fields.items, o.material, l);
      r := if face.None? then None else Some(o.(faces := o.faces + [face.value]));
    } else if keyword == MaterialUseKeyword {
      if |fields.items| == 0 {
        return None;
      }
      r := Some(o.(material := MaterialName(baseName, fields.items[0], exists_)));
    } else {
      r := if |fields.items| == 0 then None else Some(o);
    }
  }

  /** The reading loop of parse: logical line after logical line until the input ends. */
  method ReadObj(lines: seq<string>, toFloat: string -> real, baseName: string, exists_: string -> bool)
    returns (r: Option<Obj>)
    ensures r == ReadAll(lines, toFloat, baseName, exists_)
  {
    var o := EmptyObj;
    var i := 0;
    while i < |lines|
      invariant 0 <= i <= |lines|
      invariant Fold(o, LogicalLines(lines, i), toFloat, baseName, exists_) == ReadAll(lines, toFloat, baseName, exists_)
      decreases |lines| - i
    {
      var line, next := ReadLogicalLine(lines, i);
      assert LogicalLines(lines, i) == [line] + LogicalLines(lines, next);
      var stepped := Dispatch(o, line, toFloat, baseName, exists_);
      if stepped.None? {
        return None;
      }
      o, i := stepped.value, next;
    }
    r := Some(o);
  }

  /** How loading ended: the file could not be opened, the code hit undefined behaviour, or the model was built. */
  datatype Outcome = NotOpened | Undefined | Parsed

  /** The outcome of parsing a file (None when it cannot be opened). */
  function ParseOutcome(file: Option<seq<string>>, toFloat: string -> real, baseName: string, exists_: string -> bool): Outcome {
    if file.None? then NotOpened
    else
      var o := ReadAll(file.value, toFloat, baseName, exists_);
      if o.None? || |o.value.faces| == 0 then Undefined else Parsed
  }

  // ---------------------------------------------------------------- the model data

  class StaticModelData {
    var loaded: bool
    var vertices: seq<V>
    var indices: seq<int>
    var parts: seq<Part>
    var mode: int

    /** Nothing is held while not loaded. */
    ghost predicate Valid()
      reads this
    {
      !loaded ==> vertices == [] && indices == [] && parts == []
    }

    constructor ()
      ensures Valid() && !loaded && mode == 0
    {
      loaded, vertices, indices, parts, mode := false, [], [], [], 0;
    }

    /** unload: a loaded model drops its parts, vertices and indices. */
    method Unload()
      requires Valid()
      modifies this`loaded, this`vertices, this`indices, this`parts
      ensures Valid() && !loaded
      ensures old(loaded) ==> vertices == [] && indices == [] && parts == []
      ensures !old(loaded) ==> vertices == old(vertices) && indices == old(indices) && parts == old(parts)
    {
      if loaded {
        parts, vertices, indices := [], [], [];
        loaded := false;
      }
    }

    /** One point: appended to the vertex list unless already there, and its position there appended to the index list. */
    method AddPoint(p: V)
      modifies this`vertices, this`indices
      ensures vertices == old(vertices) + (if p in old(vertices) then [] else [p])
      ensures indices == old(indices) + [IndexOf(vertices, p)]
      ensures Built(vertices, indices, old(vertices), old(indices), [p])
    {
      if IndexOf(vertices, p) == -1 {
        vertices := vertices + [p];
      }
      indices := indices + [IndexOf(vertices, p)];
    }

    /**
     * The vertex loop of generateParts for one face: each point is appended to the vertex list
     * unless already there, and its position there is appended to the index list.
     */
    method AddPoints(points: seq<V>)
      modifies this`vertices, this`indices
      ensures Built(vertices, indices, old(vertices), old(indices), points)
    {
      ghost var v0, i0 := vertices, indices;
      var i := 0;
      assert vertices[..|v0|] == v0 && indices[..|i0|] == i0;
      while i < |points|
        invariant 0 <= i <= |points|
        invariant Built(vertices, indices, v0, i0, points[..i])
      {
        ghost var vs, ixs := vertices, indices;
        AddPoint(points[i]);
        BuiltAppend(v0, i0, vs, ixs, vertices, indices, points[..i], [points[i]]);
        assert points[..i] + [points[i]] == points[..i + 1];
        i := i + 1;
      }
      assert points[..i] == points;
    }

    /** One face of generateParts past its material check: it may fix the mode, and its points are added. */
    method TakeFace(face: Face, ghost v0: seq<V>, ghost i0: seq<int>, ghost before: seq<V>)
      requires Built(vertices, indices, v0, i0, before)
      modifies this`vertices, this`indices, this`mode
      ensures mode == if old(mode) == 0 then ModeOf(|face.points|) else old(mode)
      ensures Built(vertices, indices, v0, i0, before + face.points)
    {
      if mode == 0 {
        mode := ModeOf(|face.points|);
      }
      ghost var vs, ixs := vertices, indices;
      AddPoints(face.points);
      BuiltAppend(v0, i0, vs, ixs, vertices, indices, before, face.points);
    }

    /**
     * generateParts: the parts are rebuilt, every face point is de-duplicated into the vertex
     * list with its index appended, and the mode is fixed by the first supported face size.
     * The last face's material closes the final part, so there must be a face.
     */
    method GenerateParts(faces: seq<Face>)
      requires |faces| > 0
      modifies this`vertices, this`indices, this`parts, this`mode
      ensures parts == ExpectedParts(faces)
      ensures mode == ModeAfter(old(mode), faces)
      ensures Built(vertices, indices, old(vertices), old(indices), AllPoints(faces))
    {
      ghost var v0, i0, m0 := vertices, indices, mode;
      parts := [];
      var lastMat := "";
      var current: nat, count: nat := 0, 0;
      var i := 0;
      assert vertices[..|v0|] == v0 && indices[..|i0|] == i0;
      while i < |faces|
        invariant 0 <= i <= |faces|
        invariant Progress(parts, lastMat, current, count) == PartsAfter(faces[..i])
        invariant mode == ModeAfter(m0, faces[..i])
        invariant Built(vertices, indices, v0, i0, AllPoints(faces[..i]))
      {
        var face := faces[i];
        FaceStep(faces, i, m0);
        if face.material != lastMat {
          parts := parts + [MakePart(current, count, lastMat)];
          lastMat := face.material;
          count := 0;
        }
        TakeFace(face, v0, i0, AllPoints(faces[..i]));
        current, count := current + |face.points|, count + |face.points|;
        i := i + 1;
      }
      assert faces[..i] == faces;
      parts := parts + [MakePart(current, count, faces[|faces| - 1].material)];
    }

    /**
     * parse: a file that cannot be opened leaves everything as it was; one that reads without
     * undefined behaviour and has a face has its parts generated.
     */
    method Parse(file: Option<seq<string>>, toFloat: string -> real, baseName: string, exists_: string -> bool)
      returns (outcome: Outcome)
      modifies this`vertices, this`indices, this`parts, this`mode
      ensures outcome == ParseOutcome(file, toFloat, baseName, exists_)
      ensures outcome.NotOpened? ==> vertices == old(vertices) && indices == old(indices) && parts == old(parts)
      ensures outcome.Parsed? ==>
                var faces := ReadAll(file.value, toFloat, baseName, exists_).value.faces;
                parts == ExpectedParts(faces) && mode == ModeAfter(old(mode), faces)
                && Built(vertices, indices, old(vertices), old(indices), AllPoints(faces))
    {
      if file.None? {
        return NotOpened;
      }
      var o := ReadObj(file.value, toFloat, baseName, exists_);
      if o.None? || |o.value.faces| == 0 {
        return Undefined;
      }
      GenerateParts(o.value.faces);
      outcome := Parsed;
    }

    /**
     * load: unload, parse, and mark the data loaded whatever parse returned. A parsed model then
     * holds distinct vertices, one index per face point naming that point, and parts that tile
     * the index list.
     */
    method Load(file: Option<seq<string>>, toFloat: string -> real, baseName: string, exists_: string -> bool)
      returns (outcome: Outcome)
      requires Valid()
      modifies this
      ensures loaded && outcome == ParseOutcome(file, toFloat, baseName, exists_)
      ensures outcome.NotOpened? ==> vertices == [] && indices == [] && parts == []
      ensures outcome.Parsed? ==>
                var faces := ReadAll(file.value, toFloat, baseName, exists_).value.faces;
                Distinct(vertices) && Tiles(parts, |indices|) && |indices| == |AllPoints(faces)|
                && Names(vertices, indices, 0, AllPoints(faces))
    {
      Unload();
      outcome := Parse(file, toFloat, baseName, exists_);
      if outcome.Parsed? {
        PartsTile(ReadAll(file.value, toFloat, baseName, exists_).value.faces);
      }
      loaded := true;
    }
  }
}

/**
 * The older UI ribbon of the drawing demo (CustomLineRenderer.cs): a Graphic
 * that rebuilds its mesh through Unity's VertexHelper whenever it is marked
 * dirty. It emits the same joints and rounded corners as LineMeshGenerator,
 * at a constant half-width, and paints every vertex with the component's
 * colour. Positions are the symbolic ones of module Ribbon; what the geometry
 * decides at each point is handed in as one `Turn` per point.
 */
module CustomLineRenderer {
  import opened Ribbon

  /** Unity's floating-point RGBA colour. */
  datatype Color = Color(r: real, g: real, b: real, a: real)

  /** The channels of a UI vertex this component sets: position and colour
      (the rest keep `UIVertex.simpleVert`'s defaults). */
  datatype UIVertex = UIVertex(position: Position, color: Color)

  // ---------------------------------------------------------------------
  // Painted shapes
  // ---------------------------------------------------------------------

  function Painted(s: seq<Position>, c: Color): (r: seq<UIVertex>)
    ensures |r| == |s|
  {
    seq(|s|, j requires 0 <= j < |s| => UIVertex(s[j], c))
  }

  lemma PaintedAt(s: seq<Position>, c: Color, j: int)
    requires 0 <= j < |s|
    ensures Painted(s, c)[j] == UIVertex(s[j], c)
  {
  }

  lemma PaintedConcat(s: seq<Position>, t: seq<Position>, c: Color)
    ensures Painted(s + t, c) == Painted(s, c) + Painted(t, c)
  {
    assert forall j :: 0 <= j < |s + t| ==> Painted(s + t, c)[j] == (Painted(s, c) + Painted(t, c))[j];
  }

  /** A shape whose vertices carry colour c. */
  function PaintedShape(s: Shape<Position>, c: Color): (r: Shape<UIVertex>)
    ensures WellShaped(s) ==> WellShaped(r)
    ensures SameKind(s, r)
  {
    match s
    case Straight(lo, hi) => Straight(UIVertex(lo, c), UIVertex(hi, c))
    case Round(enterLo, enterHi, hub, rim, exitLo, exitHi, negative) =>
      Round(UIVertex(enterLo, c), UIVertex(enterHi, c), UIVertex(hub, c), Painted(rim, c),
            UIVertex(exitLo, c), UIVertex(exitHi, c), negative)
  }

  lemma PaintedShapeVertices(s: Shape<Position>, c: Color)
    ensures ShapeVertices(PaintedShape(s, c)) == Painted(ShapeVertices(s), c)
  {
    match s
    case Straight(lo, hi) =>
    case Round(enterLo, enterHi, hub, rim, exitLo, exitHi, negative) =>
      PaintedConcat([enterLo, enterHi, hub], rim, c);
      PaintedConcat([enterLo, enterHi, hub] + rim, [exitLo, exitHi], c);
  }

  function PaintedShapes(s: seq<Shape<Position>>, c: Color): (r: seq<Shape<UIVertex>>)
    ensures |r| == |s|
  {
    seq(|s|, k requires 0 <= k < |s| => PaintedShape(s[k], c))
  }

  /** Painting keeps every shape well formed and of its kind. */
  lemma PaintedShapesKind(s: seq<Shape<Position>>, c: Color)
    ensures AllSameKind(s, PaintedShapes(s, c))
    ensures AllWellShaped(s) ==> AllWellShaped(PaintedShapes(s, c))
  {
    assert forall k :: 0 <= k < |s| ==> PaintedShapes(s, c)[k] == PaintedShape(s[k], c);
  }

  /** The vertices of painted shapes are the painted vertices of the shapes. */
  lemma {:induction false} FlattenPainted(s: seq<Shape<Position>>, c: Color)
    ensures Flatten(PaintedShapes(s, c)) == Painted(Flatten(s), c)
    decreases |s|
  {
    if |s| > 0 {
      var p := s[..|s| - 1];
      var ps := PaintedShapes(s, c);
      assert ps[..|ps| - 1] == PaintedShapes(p, c);
      FlattenPainted(p, c);
      PaintedShapeVertices(s[|s| - 1], c);
      PaintedConcat(Flatten(p), ShapeVertices(s[|s| - 1]), c);
    }
  }

  // ---------------------------------------------------------------------
  // What a whole stroke and a plain corner emit
  // ---------------------------------------------------------------------

  /** Every point's shape at the constant half-width, before painting. */
  function StrokeShapes(n: nat, turns: seq<Turn>, width: real): (r: seq<Shape<Position>>)
    requires |turns| == n && n >= 2
    ensures |r| == n && AllWellShaped(r) && r[0].Straight?
  {
    seq(n, i requires 0 <= i < n => PointShape(n, turns, i, width))
  }

  /** The mesh OnPopulateMesh leaves in the VertexHelper for n >= 2 points. */
  function StrokeMesh(n: nat, turns: seq<Turn>, width: real, c: Color): Builder<UIVertex>
    requires |turns| == n && n >= 2
  {
    PaintedShapesKind(StrokeShapes(n, turns, width), c);
    Mesh(PaintedShapes(StrokeShapes(n, turns, width), c))
  }

  /** The renderer's mesh: every index names a vertex, the triangles are those
      of the unpainted shapes, and vertex k is the unpainted vertex k in the
      component's colour. */
  lemma StrokeMeshPainted(n: nat, turns: seq<Turn>, width: real, c: Color)
    requires |turns| == n && n >= 2
    ensures IndicesValid(StrokeMesh(n, turns, width, c))
    ensures StrokeMesh(n, turns, width, c).triangles == Mesh(StrokeShapes(n, turns, width)).triangles
    ensures |StrokeMesh(n, turns, width, c).vertices| == |Mesh(StrokeShapes(n, turns, width)).vertices|
    ensures forall k :: 0 <= k < |StrokeMesh(n, turns, width, c).vertices| ==>
      StrokeMesh(n, turns, width, c).vertices[k] == UIVertex(Mesh(StrokeShapes(n, turns, width)).vertices[k], c)
  {
    var s := StrokeShapes(n, turns, width);
    var ps := PaintedShapes(s, c);
    PaintedShapesKind(s, c);
    assert ps[0] == PaintedShape(s[0], c);
    RibbonMesh(ps);
    RibbonMesh(s);
    MeshLayout(s, ps);
    FlattenPainted(s, c);
  }

  /** Rounded corners are drawn exactly at inner points whose turn is a
      corner, with 1 + max(0, incTimes - 2) rim vertices. */
  lemma StrokeCorners(n: nat, turns: seq<Turn>, width: real, i: int)
    requires |turns| == n && n >= 2 && 0 <= i < n
    ensures StrokeShapes(n, turns, width)[i].Round? <==> 0 < i < n - 1 && turns[i].isCorner
    ensures StrokeShapes(n, turns, width)[i].Round? ==>
      && |StrokeShapes(n, turns, width)[i].rim| == 1 + (if turns[i].incTimes > 2 then turns[i].incTimes - 2 else 0)
      && StrokeShapes(n, turns, width)[i].negative == turns[i].negative
  {
  }

  /** At constant width and with no corner, n points give 2n vertices and
      2(n - 1) triangles. */
  lemma StraightStroke(n: nat, turns: seq<Turn>, width: real, c: Color)
    requires |turns| == n && n >= 2
    requires forall i :: 0 < i < n - 1 ==> !turns[i].isCorner
    ensures |StrokeMesh(n, turns, width, c).vertices| == 2 * n
    ensures |StrokeMesh(n, turns, width, c).triangles| == 6 * (n - 1)
  {
    var s := StrokeShapes(n, turns, width);
    assert forall k :: 0 <= k < |s| ==> s[k].Straight?;
    StraightRibbon(s);
    StrokeMeshPainted(n, turns, width, c);
  }

  /** The joints of the plain corner: incTimes + 1 of them, the i-th along the
      entering normal rotated by i increments (clipped to the turn). */
  function PlainCornerShapes(point: nat, normal: Normal, incTimes: int, thickness: real): (r: seq<Shape<Position>>)
    ensures |r| == (if incTimes + 1 > 0 then incTimes + 1 else 0)
  {
    seq(if incTimes + 1 > 0 then incTimes + 1 else 0, i requires 0 <= i => JointShape(point, Stepped(normal, i), thickness))
  }

  lemma PlainCornerStraight(point: nat, normal: Normal, incTimes: int, thickness: real, c: Color)
    ensures forall k :: 0 <= k < |PlainCornerShapes(point, normal, incTimes, thickness)| ==>
      PaintedShapes(PlainCornerShapes(point, normal, incTimes, thickness), c)[k].Straight?
    ensures AllWellShaped(PaintedShapes(PlainCornerShapes(point, normal, incTimes, thickness), c))
  {
  }

  /** How many of m joints appended to a builder holding v vertices bridge:
      the j-th bridges exactly when v + 2j vertices precede it and that count
      is at least 4 (`curVertecIndex > 1` once the pair is added). The first
      (5 - v) / 2 joints from a builder with fewer than four vertices do not. */
  function BridgedJoints(v: nat, m: nat): (r: nat)
    ensures v >= 4 ==> r == m
    ensures v < 4 ==> r == if m <= (5 - v) / 2 then 0 else m - (5 - v) / 2
  {
    if m == 0 then 0 else BridgedJoints(v, m - 1) + (if v + 2 * (m - 1) >= 4 then 1 else 0)
  }

  /** A run of joints adds two vertices per joint and two triangles per
      bridging joint, and keeps the threading. */
  lemma {:induction false} StraightRunFrom<V>(b: Builder<V>, s: seq<Shape<V>>)
    requires forall k :: 0 <= k < |s| ==> s[k].Straight?
    requires Threaded(b)
    ensures AllWellShaped(s)
    ensures |Run(b, s).vertices| == |b.vertices| + 2 * |s|
    ensures |Run(b, s).triangles| == |b.triangles| + 6 * BridgedJoints(|b.vertices|, |s|)
    ensures Threaded(Run(b, s))
    decreases |s|
  {
    if |s| > 0 {
      var p := s[..|s| - 1];
      assert forall k :: 0 <= k < |p| ==> p[k] == s[k];
      StraightRunFrom(b, p);
    }
  }

  /** The plain corner: 2k vertices for its k = incTimes + 1 joints, two
      triangles for each joint that bridges (all of them once two pairs
      precede the corner), and the threading kept. */
  lemma PlainCornerCounts(b: Builder<UIVertex>, point: nat, normal: Normal, incTimes: int, thickness: real, c: Color)
    requires Threaded(b)
    ensures AllWellShaped(PaintedShapes(PlainCornerShapes(point, normal, incTimes, thickness), c))
    ensures var r := Run(b, PaintedShapes(PlainCornerShapes(point, normal, incTimes, thickness), c));
      var k := if incTimes + 1 > 0 then incTimes + 1 else 0;
      && |r.vertices| == |b.vertices| + 2 * k
      && |r.triangles| == |b.triangles| + 6 * BridgedJoints(|b.vertices|, k)
      && (|b.vertices| >= 4 ==> |r.triangles| == |b.triangles| + 6 * k)
      && Threaded(r)
  {
    PlainCornerStraight(point, normal, incTimes, thickness, c);
    StraightRunFrom(b, PaintedShapes(PlainCornerShapes(point, normal, incTimes, thickness), c));
  }

  // ---------------------------------------------------------------------
  // Unity's VertexHelper, reduced to its two lists
  // ---------------------------------------------------------------------

  class VertexHelper {
    var vertices: seq<UIVertex>
    var indices: seq<int>

    constructor ()
      ensures vertices == [] && indices == []
    {
      vertices := [];
      indices := [];
    }

    method Clear()
      modifies this
      ensures vertices == [] && indices == []
    {
      vertices := [];
      indices := [];
    }

    function CurrentVertCount(): nat
      reads this
    {
      |vertices|
    }

    method AddVert(v: UIVertex)
      modifies this`vertices
      ensures vertices == old(vertices) + [v]
    {
      vertices := vertices + [v];
    }

    method AddTriangle(idx0: int, idx1: int, idx2: int)
      modifies this`indices
      ensures indices == old(indices) + [idx0, idx1, idx2]
    {
      indices := indices + [idx0, idx1, idx2];
    }
  }

  // ---------------------------------------------------------------------
  // The component
  // ---------------------------------------------------------------------

  class CustomLineRenderer {
    var points: seq<Vector2>
    var width: real
    var color: Color
    var cornerSubdivisions: int
    var cornerAngleThreshold: real

    /** The serialized defaults: half-width 0.2, black, 64 subdivisions of a
        full turn, corners above 45 degrees. */
    constructor ()
      ensures points == [] && width == 0.2 && color == Color(0.0, 0.0, 0.0, 1.0)
      ensures cornerSubdivisions == 64 && cornerAngleThreshold == 45.0
    {
      points := [];
      width := 0.2;
      color := Color(0.0, 0.0, 0.0, 1.0);
      cornerSubdivisions := 64;
      cornerAngleThreshold := 45.0;
    }

    /** Rebuilds the mesh into `vh`: cleared first, left empty for fewer than
        two points, otherwise the painted mesh of the stroke. */
    method OnPopulateMesh(vh: VertexHelper, turns: seq<Turn>)
      requires |turns| == |points|
      modifies vh
      ensures |points| < 2 ==> vh.vertices == [] && vh.indices == []
      ensures |points| >= 2 ==>
        && vh.vertices == StrokeMesh(|points|, turns, width, color).vertices
        && vh.indices == StrokeMesh(|points|, turns, width, color).triangles
    {
      vh.Clear();
      var curVertexIndex := 0;
      if |points| < 2 {
        return;
      }
      var n := |points|;
      ghost var plain := StrokeShapes(n, turns, width);
      ghost var shapes := PaintedShapes(plain, color);
      PaintedShapesKind(plain, color);
      PrefixesWellShaped(shapes);
      for i := 0 to n
        invariant Builder(vh.vertices, vh.indices, curVertexIndex) == if i < n then Run(Empty(), shapes[..i]) else Mesh(shapes)
      {
        assert shapes[i] == PaintedShape(PointShape(n, turns, i, width), color);
        RunExtend(Empty(), shapes, i);
        curVertexIndex := DrawPoint(n, turns, i, vh, width, curVertexIndex);
      }
    }

    /** One pass of OnPopulateMesh's loop: a rounded corner at an inner corner
        point, otherwise a joint along the point's own segment (the last
        point: the segment before it), then the end triangles. */
    method DrawPoint(n: nat, turns: seq<Turn>, i: nat, vh: VertexHelper, thickness: real, curVertexIndex: int)
      returns (curVertexIndexOut: int)
      requires |turns| == n && i < n && n >= 2
      modifies vh
      ensures Builder(vh.vertices, vh.indices, curVertexIndexOut) ==
        var b := Step(Builder(old(vh.vertices), old(vh.indices), curVertexIndex), PaintedShape(PointShape(n, turns, i, thickness), color));
        if i < n - 1 then b else EndCap(b)
    {
      if i != n - 1 {
        if i > 0 && i < n - 1 {
          var turn := turns[i];
          if turn.isCorner {
            curVertexIndexOut := DrawVerticesForCornerOptimized(i, SegmentNormal(i - 1), turn.negative, turn.incTimes, vh, thickness, curVertexIndex);
            return;
          } else {
            curVertexIndexOut := DrawVerticesForPoint(i, SegmentNormal(i), vh, thickness, curVertexIndex);
          }
        } else {
          curVertexIndexOut := DrawVerticesForPoint(i, SegmentNormal(i), vh, thickness, curVertexIndex);
        }
      } else {
        curVertexIndexOut := DrawVerticesForPoint(i, SegmentNormal(i - 1), vh, thickness, curVertexIndex);
        curVertexIndexOut := FillEndTriangles(vh, curVertexIndexOut);
      }
    }

    /** The plain corner, which the renderer keeps but no longer calls: one
        joint per increment from 0 to incTimes, each along the entering normal
        rotated by that many increments (clipped to the turn). */
    method DrawVerticesForCorner(curPoint: nat, normal: Normal, incTimes: int, vh: VertexHelper, thickness: real, curVertexIndex: int)
      returns (curVertexIndexOut: int)
      modifies vh
      ensures AllWellShaped(PaintedShapes(PlainCornerShapes(curPoint, normal, incTimes, thickness), color))
      ensures Builder(vh.vertices, vh.indices, curVertexIndexOut) ==
        Run(Builder(old(vh.vertices), old(vh.indices), curVertexIndex), PaintedShapes(PlainCornerShapes(curPoint, normal, incTimes, thickness), color))
    {
      ghost var b := Builder(vh.vertices, vh.indices, curVertexIndex);
      ghost var s := PaintedShapes(PlainCornerShapes(curPoint, normal, incTimes, thickness), color);
      PlainCornerStraight(curPoint, normal, incTimes, thickness, color);
      PrefixesWellShaped(s);
      curVertexIndexOut := curVertexIndex;
      var i := 0;
      while i < incTimes + 1
        invariant 0 <= i && (i <= incTimes + 1 || i == 0)
        invariant i <= |s|
        invariant Builder(vh.vertices, vh.indices, curVertexIndexOut) == Run(b, s[..i])
        decreases incTimes + 1 - i
      {
        assert s[i] == PaintedShape(JointShape(curPoint, Stepped(normal, i), thickness), color);
        RunExtend(b, s, i);
        curVertexIndexOut := DrawVerticesForPoint(curPoint, Stepped(normal, i), vh, thickness, curVertexIndexOut);
        i := i + 1;
      }
      assert s[..i] == s;
    }

    /** A corner at `curPoint`, entered along `normal`: the entry pair, bridged
        to the two pairs before it once `curVertexIndex > 1`; the hub and its
        triangle; the first rim vertex and triangle; one rim vertex and fan
        triangle per further increment; and the exit pair, left unbridged for
        the next joint. */
    method DrawVerticesForCornerOptimized(curPoint: nat, normal: Normal, negative: bool, incTimes: int, vh: VertexHelper,
                                          thickness: real, curVertexIndex: int)
      returns (curVertexIndexOut: int)
      modifies vh
      ensures Builder(vh.vertices, vh.indices, curVertexIndexOut) ==
        Step(Builder(old(vh.vertices), old(vh.indices), curVertexIndex), PaintedShape(CornerShape(curPoint, normal, negative, incTimes, thickness), color))
    {
      ghost var b := Builder(vh.vertices, vh.indices, curVertexIndex);
      ghost var rim := Painted(CornerRim(curPoint, normal, negative, incTimes, thickness), color);
      var centerIndex;
      curVertexIndexOut := DrawCornerEntry(curPoint, normal, vh, thickness, curVertexIndex);
      curVertexIndexOut, centerIndex := DrawCornerHub(curPoint, normal, negative, vh, thickness, curVertexIndexOut);
      curVertexIndexOut := DrawCornerRim(curPoint, normal, negative, incTimes, vh, thickness, centerIndex, curVertexIndexOut);
      ghost var fan := Builder(vh.vertices, vh.indices, curVertexIndexOut);
      var exitLo := UIVertex(Offset(curPoint, Minus, thickness, Turned(normal)), color);
      var exitHi := UIVertex(Offset(curPoint, Plus, thickness, Turned(normal)), color);
      vh.AddVert(exitLo);
      vh.AddVert(exitHi);
      curVertexIndexOut := curVertexIndexOut + 1;
      assert Builder(vh.vertices, vh.indices, curVertexIndexOut) == CornerExit(fan, exitLo, exitHi);
      CornerPhases(b, UIVertex(Offset(curPoint, Minus, thickness, normal), color), UIVertex(Offset(curPoint, Plus, thickness, normal), color),
                   UIVertex(Center(curPoint), color), rim, exitLo, exitHi, negative);
    }

    /** The entry pair of a corner, against which the two pairs before it are
        bridged once `curVertexIndex > 1`. */
    method DrawCornerEntry(curPoint: nat, normal: Normal, vh: VertexHelper, thickness: real, curVertexIndex: int)
      returns (curVertexIndexOut: int)
      modifies vh
      ensures Builder(vh.vertices, vh.indices, curVertexIndexOut) ==
        CornerEntry(Builder(old(vh.vertices), old(vh.indices), curVertexIndex),
                    UIVertex(Offset(curPoint, Minus, thickness, normal), color), UIVertex(Offset(curPoint, Plus, thickness, normal), color))
    {
      ghost var i0 := vh.indices;
      ghost var c := curVertexIndex;
      vh.AddVert(UIVertex(Offset(curPoint, Minus, thickness, normal), color));
      vh.AddVert(UIVertex(Offset(curPoint, Plus, thickness, normal), color));
      curVertexIndexOut := curVertexIndex;
      if curVertexIndexOut > 1 && vh.CurrentVertCount() >= 4 {
        vh.AddTriangle(curVertexIndexOut - 2, curVertexIndexOut - 1, curVertexIndexOut + 1);
        vh.AddTriangle(curVertexIndexOut + 1, curVertexIndexOut, curVertexIndexOut - 2);
        ConcatAssoc(i0, [c - 2, c - 1, c + 1], [c + 1, c, c - 2]);
        ghost var once := vh.indices;
        curVertexIndexOut := curVertexIndexOut + 2;
        vh.AddTriangle(curVertexIndexOut - 2, curVertexIndexOut - 1, curVertexIndexOut + 1);
        vh.AddTriangle(curVertexIndexOut + 1, curVertexIndexOut, curVertexIndexOut - 2);
        ConcatAssoc(once, [c, c + 1, c + 3], [c + 3, c + 2, c]);
        ConcatAssoc(i0, Quad(c), Quad(c + 2));
      } else {
        curVertexIndexOut := vh.CurrentVertCount() - 2;
      }
    }

    /** The hub of a corner and its triangle, then the first rim vertex (the
        entering normal rotated by one increment, on the outer side of the
        turn) and the first rim triangle, whose winding follows the turn. */
    method DrawCornerHub(curPoint: nat, normal: Normal, negative: bool, vh: VertexHelper, thickness: real, curVertexIndex: int)
      returns (curVertexIndexOut: int, centerIndex: int)
      modifies vh
      ensures Builder(vh.vertices, vh.indices, curVertexIndexOut) ==
        CornerHub(Builder(old(vh.vertices), old(vh.indices), curVertexIndex), UIVertex(Center(curPoint), color),
                  UIVertex(Offset(curPoint, if negative then Minus else Plus, thickness, Stepped(normal, 1)), color), negative)
      ensures centerIndex == curVertexIndex + 2
    {
      ghost var v0, i0 := vh.vertices, vh.indices;
      vh.AddVert(UIVertex(Center(curPoint), color));
      centerIndex := curVertexIndex + 2;
      vh.AddTriangle(centerIndex - 1, centerIndex, centerIndex + 1);
      curVertexIndexOut := curVertexIndex + 3;
      ghost var rim0 := UIVertex(Offset(curPoint, if negative then Minus else Plus, thickness, Stepped(normal, 1)), color);
      if negative {
        vh.AddVert(UIVertex(Offset(curPoint, Minus, thickness, Stepped(normal, 1)), color));
        vh.AddTriangle(curVertexIndexOut - 3, curVertexIndexOut - 1, curVertexIndexOut);
      } else {
        vh.AddVert(UIVertex(Offset(curPoint, Plus, thickness, Stepped(normal, 1)), color));
        vh.AddTriangle(curVertexIndexOut - 1, curVertexIndexOut - 2, curVertexIndexOut);
      }
      ghost var hubTriangle := [centerIndex - 1, centerIndex, centerIndex + 1];
      ghost var firstRim := vh.indices[|i0| + 3..];
      assert vh.indices == i0 + hubTriangle + firstRim;
      assert CornerOwnTriangles(curVertexIndex, 1, negative) == hubTriangle + firstRim + [];
      ConcatAssoc(i0, hubTriangle, firstRim);
      ConcatAssoc(v0, [UIVertex(Center(curPoint), color)], [rim0]);
    }

    /** The rim loop of a corner: for each increment from the second to the
        last, a rim vertex offset to the outer side of the turn and a fan
        triangle from the hub to it and the rim vertex before it. */
    method DrawCornerRim(curPoint: nat, normal: Normal, negative: bool, incTimes: int, vh: VertexHelper, thickness: real,
                         centerIndex: int, curVertexIndex: int)
      returns (curVertexIndexOut: int)
      requires centerIndex == curVertexIndex - 1
      modifies vh
      ensures Builder(vh.vertices, vh.indices, curVertexIndexOut) ==
        CornerFan(Builder(old(vh.vertices), old(vh.indices), curVertexIndex),
                  Painted(CornerRim(curPoint, normal, negative, incTimes, thickness), color)[1..], negative)
    {
      ghost var v0, i0 := vh.vertices, vh.indices;
      ghost var rim := CornerRim(curPoint, normal, negative, incTimes, thickness);
      ghost var rest := Painted(rim, color)[1..];
      CornerRimAt(curPoint, normal, negative, incTimes, thickness);
      curVertexIndexOut := curVertexIndex;
      var i := 2;
      while i < incTimes
        invariant 2 <= i <= |rest| + 2
        invariant vh.vertices == v0 + rest[..i - 2]
        invariant vh.indices == i0 + FanTriangles(centerIndex, curVertexIndex, i - 2, negative)
        invariant curVertexIndexOut == curVertexIndex + i - 2
        decreases incTimes - i
      {
        PaintedAt(rim, color, i - 1);
        if negative {
          vh.AddVert(UIVertex(Offset(curPoint, Minus, thickness, Stepped(normal, i)), color));
        } else {
          vh.AddVert(UIVertex(Offset(curPoint, Plus, thickness, Stepped(normal, i)), color));
        }
        assert rest[..i - 1] == rest[..i - 2] + [rest[i - 2]];
        ConcatAssoc(v0, rest[..i - 2], [rest[i - 2]]);
        ghost var fan := FanTriangle(centerIndex, curVertexIndexOut, negative);
        if negative {
          vh.AddTriangle(centerIndex, curVertexIndexOut + 1, curVertexIndexOut);
        } else {
          vh.AddTriangle(centerIndex, curVertexIndexOut, curVertexIndexOut + 1);
        }
        ConcatAssoc(i0, FanTriangles(centerIndex, curVertexIndex, i - 2, negative), fan);
        curVertexIndexOut := curVertexIndexOut + 1;
        i := i + 1;
      }
      assert rest[..i - 2] == rest;
    }

    /** A straight joint at `curPoint` along `normal`: two vertices, and once
        `curVertexIndex > 1` the quad between the two pairs before them. */
    method DrawVerticesForPoint(curPoint: nat, normal: Normal, vh: VertexHelper, thickness: real, curTriangleIndex: int)
      returns (curTriangleIndexOut: int)
      modifies vh
      ensures Builder(vh.vertices, vh.indices, curTriangleIndexOut) ==
        Step(Builder(old(vh.vertices), old(vh.indices), curTriangleIndex), PaintedShape(JointShape(curPoint, normal, thickness), color))
    {
      vh.AddVert(UIVertex(Offset(curPoint, Minus, thickness, normal), color));
      vh.AddVert(UIVertex(Offset(curPoint, Plus, thickness, normal), color));
      curTriangleIndexOut := curTriangleIndex;
      if curTriangleIndexOut > 1 && vh.CurrentVertCount() >= 4 {
        vh.AddTriangle(curTriangleIndexOut - 2, curTriangleIndexOut - 1, curTriangleIndexOut + 1);
        vh.AddTriangle(curTriangleIndexOut + 1, curTriangleIndexOut, curTriangleIndexOut - 2);
        curTriangleIndexOut := curTriangleIndexOut + 2;
      } else {
        curTriangleIndexOut := vh.CurrentVertCount() - 2;
      }
    }

    /** The end cap: the quad the last joint left pending. */
    method FillEndTriangles(vh: VertexHelper, curTriangleIndex: int) returns (curTriangleIndexOut: int)
      modifies vh
      ensures Builder(vh.vertices, vh.indices, curTriangleIndexOut) ==
        EndCap(Builder(old(vh.vertices), old(vh.indices), curTriangleIndex))
    {
      curTriangleIndexOut := curTriangleIndex;
      if curTriangleIndexOut > 1 && vh.CurrentVertCount() >= 4 {
        vh.AddTriangle(curTriangleIndexOut - 2, curTriangleIndexOut - 1, curTriangleIndexOut + 1);
        vh.AddTriangle(curTriangleIndexOut + 1, curTriangleIndexOut, curTriangleIndexOut - 2);
        curTriangleIndexOut := curTriangleIndexOut + 2;
      }
    }
  }
}

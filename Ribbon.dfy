/**
 * Index bookkeeping shared by the two ribbon builders of the drawing demo
 * (LineMeshGenerator and the older CustomLineRenderer).
 *
 * A builder walks the stroke's points and, for each one, appends either a
 * straight joint (two vertices) or a rounded corner (two entry vertices, a
 * hub, a rim and two exit vertices); triangles are appended as flat index
 * triples, and a running `curVertexIndex` is threaded from one emitter to the
 * next. Everything here is generic in the vertex type V: the floating-point
 * positions are not modelled, so a vertex is whatever value the caller chooses
 * to append (see `Position` for the symbolic one both builders use).
 */
module Ribbon {

  type Byte = b: int | 0 <= b < 256

  /** An RGBA colour with 8-bit channels. */
  datatype Color32 = Color32(r: Byte, g: Byte, b: Byte, a: Byte)

  /** A stroke position; no arithmetic is ever done on it in this model. */
  datatype Vector2 = Vector2(x: real, y: real)

  /** Which way from the stroke's centre line an offset vertex lies:
      `point - thickness * normal` (Minus) or `point + thickness * normal` (Plus). */
  datatype Side = Minus | Plus

  /** The unit normal an offset is taken along, named by how it was derived. */
  datatype Normal =
    | SegmentNormal(segment: nat)     // normal of the segment from point `segment` to point `segment + 1`
    | Stepped(base: Normal, steps: nat) // `base` rotated by `steps` corner increments, clipped to the turn
    | Turned(base: Normal)            // `base` rotated by the whole turn angle

  /** A vertex position, named symbolically by the stroke point it belongs to. */
  datatype Position =
    | Offset(point: nat, side: Side, thickness: real, normal: Normal)
    | Center(point: nat)

  /** The state threaded through the emitters: the vertex list, the flat
      triangle index list and the running `curVertexIndex`. */
  datatype Builder<V> = Builder(vertices: seq<V>, triangles: seq<int>, curVertexIndex: int)

  function Empty<V>(): Builder<V>
  {
    Builder([], [], 0)
  }

  /** Between joints, `curVertexIndex` is the index of the first vertex of the
      last pair appended (or 0 before anything is appended). */
  predicate Threaded<V>(b: Builder<V>)
  {
    (|b.vertices| == 0 && b.curVertexIndex == 0) || b.curVertexIndex == |b.vertices| - 2
  }

  /** The triangle list is made of whole triples, each naming existing vertices. */
  predicate IndicesValid<V>(b: Builder<V>)
  {
    |b.triangles| % 3 == 0 && Within(b.triangles, 0, |b.vertices|)
  }

  /** The two triangles of the quad between the pairs (c-2, c-1) and (c, c+1). */
  function Quad(c: int): seq<int>
  {
    [c - 2, c - 1, c + 1, c + 1, c, c - 2]
  }

  /** A straight joint: append `lo` and `hi`; once `curVertexIndex > 1`, bridge
      the two pairs appended BEFORE this one ("delayed quad"). */
  function Joint<V>(b: Builder<V>, lo: V, hi: V): (r: Builder<V>)
    ensures r.vertices == b.vertices + [lo, hi]
    ensures Threaded(b) ==> r.curVertexIndex == |r.vertices| - 2
    ensures Threaded(b) && |b.vertices| >= 4 ==>
      var n := |b.vertices|;
      r.triangles == b.triangles + [n - 4, n - 3, n - 1, n - 1, n - 2, n - 4]
    ensures Threaded(b) && |b.vertices| < 4 ==> r.triangles == b.triangles
    ensures Threaded(b) && IndicesValid(b) ==> IndicesValid(r)
  {
    var vs := b.vertices + [lo, hi];
    if b.curVertexIndex > 1 && |vs| >= 4 then
      Builder(vs, b.triangles + Quad(b.curVertexIndex), b.curVertexIndex + 2)
    else
      Builder(vs, b.triangles, |vs| - 2)
  }

  /** The end cap: the quad between the last two pairs, which no later joint
      would otherwise supply. */
  function EndCap<V>(b: Builder<V>): (r: Builder<V>)
    ensures r.vertices == b.vertices
    ensures Threaded(b) && |b.vertices| >= 4 ==>
      var n := |b.vertices|;
      r.curVertexIndex == n && r.triangles == b.triangles + [n - 4, n - 3, n - 1, n - 1, n - 2, n - 4]
    ensures Threaded(b) && |b.vertices| < 4 ==> r == b
    ensures Threaded(b) && IndicesValid(b) ==> IndicesValid(r)
  {
    if b.curVertexIndex > 1 && |b.vertices| >= 4 then
      Builder(b.vertices, b.triangles + Quad(b.curVertexIndex), b.curVertexIndex + 2)
    else
      b
  }

  /** One fan triangle from the hub to rim vertices c and c+1; its winding
      follows the sign of the turn. */
  function FanTriangle(center: int, c: int, negative: bool): seq<int>
  {
    if negative then [center, c + 1, c] else [center, c, c + 1]
  }

  /** The triangles the rim loop emits: m fan triangles, the j-th from the hub
      to rim vertices first+j and first+j+1. */
  function FanTriangles(center: int, first: int, m: nat, negative: bool): (r: seq<int>)
    ensures |r| == 3 * m
  {
    if m == 0 then []
    else FanTriangles(center, first, m - 1, negative) + FanTriangle(center, first + m - 1, negative)
  }

  /** A fan names only the hub and the rim vertices first .. first+m. */
  lemma {:induction false} FanWithin(center: int, first: int, m: nat, negative: bool)
    ensures forall k :: 0 <= k < 3 * m ==>
      FanTriangles(center, first, m, negative)[k] == center || first <= FanTriangles(center, first, m, negative)[k] <= first + m
    decreases m
  {
    if m > 0 {
      FanWithin(center, first, m - 1, negative);
      var r := FanTriangles(center, first, m, negative);
      var p := FanTriangles(center, first, m - 1, negative);
      var t := FanTriangle(center, first + m - 1, negative);
      assert r == p + t;
      forall k | 0 <= k < |r|
        ensures r[k] == center || first <= r[k] <= first + m
      {
        if k < |p| {
          assert r[k] == p[k];
        } else {
          assert r[k] == t[k - |p|];
        }
      }
    }
  }

  /** A rounded corner: the entry pair (bridged twice once `curVertexIndex > 1`),
      the hub, the rim (its first vertex with the hub triangle and a first fan
      triangle, each further one with a fan triangle), and the exit pair. */
  function Corner<V>(b: Builder<V>, enterLo: V, enterHi: V, hub: V, rim: seq<V>, exitLo: V, exitHi: V, negative: bool): (r: Builder<V>)
    requires |rim| >= 1
    ensures r.vertices == b.vertices + [enterLo, enterHi, hub] + rim + [exitLo, exitHi]
  {
    var c := b.curVertexIndex;
    var bridged := c > 1 && |b.vertices| + 2 >= 4;
    var c1 := if bridged then c + 2 else |b.vertices|;
    Builder(b.vertices + [enterLo, enterHi, hub] + rim + [exitLo, exitHi],
            b.triangles + (if bridged then Quad(c) + Quad(c + 2) else []) + CornerOwnTriangles(c1, |rim|, negative),
            c1 + 3 + |rim|)
  }

  /** The phases of a corner in the order the emitter runs them: the entry
      pair and its bridge; the hub, the first rim vertex and their two
      triangles; the remaining rim vertices with their fan; the exit pair. */
  function CornerEntry<V>(b: Builder<V>, enterLo: V, enterHi: V): Builder<V>
  {
    var c := b.curVertexIndex;
    var bridged := c > 1 && |b.vertices| + 2 >= 4;
    Builder(b.vertices + [enterLo, enterHi],
            b.triangles + (if bridged then Quad(c) + Quad(c + 2) else []),
            if bridged then c + 2 else |b.vertices|)
  }

  function CornerHub<V>(b: Builder<V>, hub: V, rim0: V, negative: bool): Builder<V>
  {
    Builder(b.vertices + [hub, rim0], b.triangles + CornerOwnTriangles(b.curVertexIndex, 1, negative), b.curVertexIndex + 3)
  }

  function CornerFan<V>(b: Builder<V>, rest: seq<V>, negative: bool): Builder<V>
  {
    Builder(b.vertices + rest, b.triangles + FanTriangles(b.curVertexIndex - 1, b.curVertexIndex, |rest|, negative), b.curVertexIndex + |rest|)
  }

  function CornerExit<V>(b: Builder<V>, exitLo: V, exitHi: V): Builder<V>
  {
    Builder(b.vertices + [exitLo, exitHi], b.triangles, b.curVertexIndex + 1)
  }

  /** Running the four phases is the corner. */
  lemma CornerPhases<V>(b: Builder<V>, enterLo: V, enterHi: V, hub: V, rim: seq<V>, exitLo: V, exitHi: V, negative: bool)
    requires |rim| >= 1
    ensures Corner(b, enterLo, enterHi, hub, rim, exitLo, exitHi, negative) ==
      CornerExit(CornerFan(CornerHub(CornerEntry(b, enterLo, enterHi), hub, rim[0], negative), rim[1..], negative), exitLo, exitHi)
  {
    var r := Corner(b, enterLo, enterHi, hub, rim, exitLo, exitHi, negative);
    var e := CornerEntry(b, enterLo, enterHi);
    var h := CornerHub(e, hub, rim[0], negative);
    var f := CornerFan(h, rim[1..], negative);
    var x := CornerExit(f, exitLo, exitHi);
    var c1 := e.curVertexIndex;
    assert r.curVertexIndex == x.curVertexIndex;
    assert r.triangles == x.triangles by {
      CornerOwnFan(c1, |rim|, negative);
      assert x.triangles == e.triangles + CornerOwnTriangles(c1, 1, negative) + FanTriangles(c1 + 2, c1 + 3, |rim| - 1, negative);
      ConcatAssoc(e.triangles, CornerOwnTriangles(c1, 1, negative), FanTriangles(c1 + 2, c1 + 3, |rim| - 1, negative));
    }
    assert r.vertices == x.vertices by {
      assert [rim[0]] + rim[1..] == rim;
      assert x.vertices == b.vertices + [enterLo, enterHi] + [hub, rim[0]] + rim[1..] + [exitLo, exitHi];
      ConcatAssoc(b.vertices, [enterLo, enterHi], [hub, rim[0]]);
      ConcatAssoc(b.vertices + [enterLo, enterHi, hub, rim[0]], rim[1..], [exitLo, exitHi]);
      ConcatAssoc(b.vertices + [enterLo, enterHi, hub], [rim[0]], rim[1..]);
    }
  }

  /** Every entry of `s` lies in [lo, hi). */
  predicate Within(s: seq<int>, lo: int, hi: int)
  {
    forall k :: 0 <= k < |s| ==> lo <= s[k] < hi
  }

  lemma WithinConcat(s: seq<int>, t: seq<int>, lo: int, hi: int)
    requires Within(s, lo, hi) && Within(t, lo, hi)
    ensures Within(s + t, lo, hi)
  {
    forall k | 0 <= k < |s + t| ensures lo <= (s + t)[k] < hi {
      if k >= |s| {
        assert (s + t)[k] == t[k - |s|];
      }
    }
  }

  /** A corner restores `curVertexIndex == vertexCount - 2`, appends 5 + |rim|
      vertices and 1 + |rim| fan triangles (plus 4 bridging ones once two
      joints precede it), and names only vertices it or its predecessors
      appended. */
  lemma CornerInvariant<V>(b: Builder<V>, enterLo: V, enterHi: V, hub: V, rim: seq<V>, exitLo: V, exitHi: V, negative: bool)
    requires |rim| >= 1
    ensures var r := Corner(b, enterLo, enterHi, hub, rim, exitLo, exitHi, negative);
      Threaded(b) ==>
      && r.curVertexIndex == |r.vertices| - 2
      && |r.triangles| == |b.triangles| + 3 * ((if |b.vertices| >= 4 then 4 else 0) + 1 + |rim|)
      && (IndicesValid(b) ==> IndicesValid(r))
  {
    if Threaded(b) {
      var n := |b.vertices|;
      CornerOwnWithin(n, |rim|, negative);
      if IndicesValid(b) {
        CornerIndicesValid(b, enterLo, enterHi, hub, rim, exitLo, exitHi, negative);
      }
    }
  }

  lemma CornerIndicesValid<V>(b: Builder<V>, enterLo: V, enterHi: V, hub: V, rim: seq<V>, exitLo: V, exitHi: V, negative: bool)
    requires |rim| >= 1 && Threaded(b) && IndicesValid(b)
    ensures IndicesValid(Corner(b, enterLo, enterHi, hub, rim, exitLo, exitHi, negative))
  {
    var r := Corner(b, enterLo, enterHi, hub, rim, exitLo, exitHi, negative);
    CornerWithin(b, enterLo, enterHi, hub, rim, exitLo, exitHi, negative);
    CornerOwnWithin(if |b.vertices| >= 4 then b.curVertexIndex + 2 else |b.vertices|, |rim|, negative);
    var k := (if |b.vertices| >= 4 then 4 else 0) + 1 + |rim|;
    assert |r.triangles| == |b.triangles| + 3 * k;
  }

  lemma CornerWithin<V>(b: Builder<V>, enterLo: V, enterHi: V, hub: V, rim: seq<V>, exitLo: V, exitHi: V, negative: bool)
    requires |rim| >= 1 && Threaded(b) && Within(b.triangles, 0, |b.vertices|)
    ensures var r := Corner(b, enterLo, enterHi, hub, rim, exitLo, exitHi, negative);
      Within(r.triangles, 0, |r.vertices|)
  {
    var n := |b.vertices|;
    var bridge := if n >= 4 then Quad(n - 2) + Quad(n) else [];
    var own := CornerOwnTriangles(n, |rim|, negative);
    var r := Corner(b, enterLo, enterHi, hub, rim, exitLo, exitHi, negative);
    var m := |r.vertices|;
    CornerOwnWithin(n, |rim|, negative);
    assert r.triangles == (b.triangles + bridge) + own;
    assert Within(bridge, 0, m);
    WithinConcat(b.triangles, bridge, 0, m);
    WithinConcat(b.triangles + bridge, own, 0, m);
  }

  /** The hub triangle, the first rim triangle and the fan of a corner whose
      entry pair starts at vertex n: the hub is vertex n+2 (`centerIndex`), the
      rim starts at n+3. */
  function CornerOwnTriangles(n: int, rimCount: nat, negative: bool): seq<int>
    requires rimCount >= 1
  {
    var center := n + 2;
    var c2 := n + 3;
    [center - 1, center, center + 1] +
    (if negative then [c2 - 3, c2 - 1, c2] else [c2 - 1, c2 - 2, c2]) +
    FanTriangles(center, c2, rimCount - 1, negative)
  }

  /** The hub and first-rim triangles, then the whole fan. */
  lemma CornerOwnFan(n: int, rimCount: nat, negative: bool)
    requires rimCount >= 1
    ensures CornerOwnTriangles(n, rimCount, negative) ==
      CornerOwnTriangles(n, 1, negative) + FanTriangles(n + 2, n + 3, rimCount - 1, negative)
  {
    assert FanTriangles(n + 2, n + 3, 0, negative) == [];
  }

  lemma CornerOwnWithin(n: nat, rimCount: nat, negative: bool)
    requires rimCount >= 1
    ensures |CornerOwnTriangles(n, rimCount, negative)| == 3 * (1 + rimCount)
    ensures Within(CornerOwnTriangles(n, rimCount, negative), 0, n + 5 + rimCount)
  {
    var m := n + 5 + rimCount;
    var head := [n + 1, n + 2, n + 3] + (if negative then [n, n + 2, n + 3] else [n + 2, n + 1, n + 3]);
    assert Within(head, 0, m);
    var fan := FanTriangles(n + 2, n + 3, rimCount - 1, negative);
    FanWithin(n + 2, n + 3, rimCount - 1, negative);
    assert Within(fan, 0, m);
    WithinConcat(head, fan, 0, m);
  }

  /** What one stroke point emits. */
  datatype Shape<V> =
    | Straight(lo: V, hi: V)
    | Round(enterLo: V, enterHi: V, hub: V, rim: seq<V>, exitLo: V, exitHi: V, negative: bool)

  predicate WellShaped<V>(s: Shape<V>)
  {
    s.Round? ==> |s.rim| >= 1
  }

  predicate AllWellShaped<V>(s: seq<Shape<V>>)
  {
    forall k :: 0 <= k < |s| ==> WellShaped(s[k])
  }

  /** The two vertices of a straight joint at `point`: `point -/+ thickness * normal`. */
  function JointShape(point: nat, normal: Normal, thickness: real): Shape<Position>
  {
    Straight(Offset(point, Minus, thickness, normal), Offset(point, Plus, thickness, normal))
  }

  /** The rim of a rounded corner at `point`: the normal entering the corner
      rotated by 1 increment, then by 2 .. incTimes-1 increments, each offset
      to the outer side of the turn (Minus for a negative turn). */
  function CornerRim(point: nat, normal: Normal, negative: bool, incTimes: int, thickness: real): (r: seq<Position>)
    ensures |r| == 1 + (if incTimes > 2 then incTimes - 2 else 0)
  {
    var side := if negative then Minus else Plus;
    [Offset(point, side, thickness, Stepped(normal, 1))] +
    seq(if incTimes > 2 then incTimes - 2 else 0, j requires 0 <= j => Offset(point, side, thickness, Stepped(normal, j + 2)))
  }

  /** The j-th rim vertex lies along the entering normal rotated by j+1 increments. */
  lemma CornerRimAt(point: nat, normal: Normal, negative: bool, incTimes: int, thickness: real)
    ensures var r := CornerRim(point, normal, negative, incTimes, thickness);
      forall j :: 0 <= j < |r| ==> r[j] == Offset(point, if negative then Minus else Plus, thickness, Stepped(normal, j + 1))
  {
  }

  /** A rounded corner at `point`: the entry pair along the entering normal,
      the hub at the point itself, the rim, and the exit pair along the
      entering normal turned by the whole angle. */
  function CornerShape(point: nat, normal: Normal, negative: bool, incTimes: int, thickness: real): (r: Shape<Position>)
    ensures WellShaped(r) && r.Round?
  {
    Round(Offset(point, Minus, thickness, normal), Offset(point, Plus, thickness, normal), Center(point),
          CornerRim(point, normal, negative, incTimes, thickness),
          Offset(point, Minus, thickness, Turned(normal)), Offset(point, Plus, thickness, Turned(normal)),
          negative)
  }

  /** What the geometry decides at one point: whether the signed turn angle
      exceeds `cornerAngleThreshold` (a corner), whether that angle is negative
      (then the corner increment is negative), and the number of increments
      `ceil(|angle / angleIncrement|)` the corner is split into. */
  datatype Turn = Turn(isCorner: bool, negative: bool, incTimes: int)

  /** The shape point i of n emits at half-width w. The last point is a joint
      along the normal of the segment ending at it; an inner point whose turn
      is a corner is a rounded corner entered along the previous segment's
      normal; every other point is a joint along the normal of the segment
      leaving it. */
  function PointShape(n: nat, turns: seq<Turn>, i: nat, w: real): (r: Shape<Position>)
    requires |turns| == n && i < n && n >= 2
    ensures WellShaped(r)
  {
    if i == n - 1 then JointShape(i, SegmentNormal(i - 1), w)
    else if i > 0 && turns[i].isCorner then CornerShape(i, SegmentNormal(i - 1), turns[i].negative, turns[i].incTimes, w)
    else JointShape(i, SegmentNormal(i), w)
  }

  /** Two shapes of the same kind with rims of the same length and the same
      turn sign: they append the same number of vertices and the same indices. */
  predicate SameKind<V, W>(s: Shape<V>, t: Shape<W>)
  {
    match s
    case Straight(_, _) => t.Straight?
    case Round(_, _, _, rim, _, _, negative) => t.Round? && |t.rim| == |rim| && t.negative == negative
  }

  predicate AllSameKind<V, W>(s: seq<Shape<V>>, t: seq<Shape<W>>)
  {
    |s| == |t| && forall k :: 0 <= k < |s| ==> SameKind(s[k], t[k])
  }

  /** Builders that agree on everything but the vertex values. */
  predicate SameLayout<V, W>(b: Builder<V>, c: Builder<W>)
  {
    |b.vertices| == |c.vertices| && b.triangles == c.triangles && b.curVertexIndex == c.curVertexIndex
  }

  /** The vertices a point appends, in order. */
  function ShapeVertices<V>(s: Shape<V>): seq<V>
  {
    match s
    case Straight(lo, hi) => [lo, hi]
    case Round(enterLo, enterHi, hub, rim, exitLo, exitHi, _) => [enterLo, enterHi, hub] + rim + [exitLo, exitHi]
  }

  /** Reference counts per point: vertices, own (fan) triangles, and the
      bridging triangles it adds once two joints precede it. */
  function ShapeVertexCount<V>(s: Shape<V>): nat
  {
    if s.Straight? then 2 else 5 + |s.rim|
  }

  function ShapeFanCount<V>(s: Shape<V>): nat
  {
    if s.Straight? then 0 else 1 + |s.rim|
  }

  function ShapeBridgeCount<V>(s: Shape<V>): nat
  {
    if s.Straight? then 2 else 4
  }

  function Step<V>(b: Builder<V>, s: Shape<V>): (r: Builder<V>)
    requires WellShaped(s)
    ensures r.vertices == b.vertices + ShapeVertices(s)
  {
    match s
    case Straight(lo, hi) => Joint(b, lo, hi)
    case Round(enterLo, enterHi, hub, rim, exitLo, exitHi, negative) =>
      Corner(b, enterLo, enterHi, hub, rim, exitLo, exitHi, negative)
  }

  /** Every point, straight or round, restores `curVertexIndex == vertexCount - 2`,
      adds its own triangles and, once two joints precede it, its bridge. */
  lemma StepInvariant<V>(b: Builder<V>, s: Shape<V>)
    requires WellShaped(s) && Threaded(b)
    ensures var r := Step(b, s);
      && Threaded(r) && r.curVertexIndex == |r.vertices| - 2
      && |r.triangles| == |b.triangles| + 3 * (ShapeFanCount(s) + if |b.vertices| >= 4 then ShapeBridgeCount(s) else 0)
      && (IndicesValid(b) ==> IndicesValid(Step(b, s)))
  {
    match s
    case Straight(lo, hi) =>
    case Round(enterLo, enterHi, hub, rim, exitLo, exitHi, negative) =>
      CornerInvariant(b, enterLo, enterHi, hub, rim, exitLo, exitHi, negative);
  }

  lemma ConcatAssoc<T>(x: seq<T>, y: seq<T>, z: seq<T>)
    ensures (x + y) + z == x + (y + z)
  {
  }

  lemma ConcatSlices<T>(x: seq<T>, y: seq<T>)
    ensures (x + y)[..|x|] == x && (x + y)[|x|..] == y
  {
  }

  /** The builder after emitting every shape of `s`, in order, from `b`. */
  function Run<V>(b: Builder<V>, s: seq<Shape<V>>): (r: Builder<V>)
    requires AllWellShaped(s)
    ensures r.vertices == b.vertices + Flatten(s)
    decreases |s|
  {
    if |s| == 0 then b
    else
      var p := s[..|s| - 1];
      var r := Run(b, p);
      ConcatAssoc(b.vertices, Flatten(p), ShapeVertices(s[|s| - 1]));
      Step(r, s[|s| - 1])
  }

  lemma PrefixesWellShaped<V>(s: seq<Shape<V>>)
    requires AllWellShaped(s)
    ensures forall i :: 0 <= i <= |s| ==> AllWellShaped(s[..i])
  {
    forall i | 0 <= i <= |s|
      ensures AllWellShaped(s[..i])
    {
      forall k | 0 <= k < i
        ensures WellShaped(s[..i][k])
      {
        assert s[..i][k] == s[k];
      }
    }
  }

  /** Emitting one more shape extends the run by one step. */
  lemma RunExtend<V>(b: Builder<V>, s: seq<Shape<V>>, i: int)
    requires AllWellShaped(s) && 0 <= i < |s|
    ensures AllWellShaped(s[..i]) && AllWellShaped(s[..i + 1])
    ensures Run(b, s[..i + 1]) == Step(Run(b, s[..i]), s[i])
    ensures i + 1 == |s| ==> Mesh(s) == EndCap(Step(Run(Empty(), s[..i]), s[i]))
  {
    PrefixesWellShaped(s);
    assert s[..i + 1][..i] == s[..i];
    assert s[..|s|] == s;
  }

  /** A whole stroke: every point's shape, then the end cap. */
  function Mesh<V>(s: seq<Shape<V>>): Builder<V>
    requires AllWellShaped(s)
  {
    EndCap(Run(Empty(), s))
  }

  function Flatten<V>(s: seq<Shape<V>>): seq<V>
    decreases |s|
  {
    if |s| == 0 then [] else Flatten(s[..|s| - 1]) + ShapeVertices(s[|s| - 1])
  }

  function VertexTotal<V>(s: seq<Shape<V>>): nat
    decreases |s|
  {
    if |s| == 0 then 0 else VertexTotal(s[..|s| - 1]) + ShapeVertexCount(s[|s| - 1])
  }

  /** Triangles emitted by the points themselves: every fan, plus the bridge
      of every point from the third on. */
  function TriangleTotal<V>(s: seq<Shape<V>>): nat
    decreases |s|
  {
    if |s| == 0 then 0
    else TriangleTotal(s[..|s| - 1]) + ShapeFanCount(s[|s| - 1]) + (if |s| - 1 >= 2 then ShapeBridgeCount(s[|s| - 1]) else 0)
  }

  /** Triangles of a whole stroke: the points' own, plus the end cap's two. */
  function RibbonTriangleCount<V>(s: seq<Shape<V>>): nat
  {
    TriangleTotal(s) + if |s| >= 2 then 2 else 0
  }

  lemma PrefixWellShaped<V>(s: seq<Shape<V>>)
    requires AllWellShaped(s) && |s| > 0
    ensures AllWellShaped(s[..|s| - 1])
  {
    var p := s[..|s| - 1];
    forall k | 0 <= k < |p| ensures WellShaped(p[k]) {
      assert p[k] == s[k];
    }
  }

  /** Emitting shapes keeps the threading invariant and index validity, and
      appends exactly the shapes' vertices, in order. */
  lemma RunInvariant<V>(b: Builder<V>, s: seq<Shape<V>>)
    requires AllWellShaped(s) && Threaded(b) && IndicesValid(b)
    ensures Threaded(Run(b, s)) && IndicesValid(Run(b, s))
    ensures Run(b, s).vertices == b.vertices + Flatten(s)
    ensures |Run(b, s).vertices| == |b.vertices| + VertexTotal(s)
  {
    RunKeepsInvariant(b, s);
    FlattenLength(s);
  }

  lemma {:induction false} RunKeepsInvariant<V>(b: Builder<V>, s: seq<Shape<V>>)
    requires AllWellShaped(s) && Threaded(b) && IndicesValid(b)
    ensures Threaded(Run(b, s)) && IndicesValid(Run(b, s))
    decreases |s|
  {
    if |s| > 0 {
      PrefixWellShaped(s);
      RunKeepsInvariant(b, s[..|s| - 1]);
      StepInvariant(Run(b, s[..|s| - 1]), s[|s| - 1]);
    }
  }

  /** Every entry of `s` is at least `lo`: no triangle names a vertex below it. */
  predicate Above(s: seq<int>, lo: int)
  {
    forall k :: 0 <= k < |s| ==> s[k] >= lo
  }

  lemma AboveConcat(s: seq<int>, t: seq<int>, lo: int)
    requires Above(s, lo) && Above(t, lo)
    ensures Above(s + t, lo)
  {
    forall k | 0 <= k < |s + t| ensures (s + t)[k] >= lo {
      if k >= |s| {
        assert (s + t)[k] == t[k - |s|];
      }
    }
  }

  /** A corner's own triangles name only vertices from its entry pair (at n)
      on. */
  lemma CornerOwnAbove(n: int, rimCount: nat, negative: bool)
    requires rimCount >= 1
    ensures Above(CornerOwnTriangles(n, rimCount, negative), n)
  {
    var head := [n + 1, n + 2, n + 3] + (if negative then [n, n + 2, n + 3] else [n + 2, n + 1, n + 3]);
    var fan := FanTriangles(n + 2, n + 3, rimCount - 1, negative);
    FanWithin(n + 2, n + 3, rimCount - 1, negative);
    assert Above(head, n);
    assert Above(fan, n);
    AboveConcat(head, fan, n);
  }

  /** A point emitted after at least lo + 4 vertices names none below lo. */
  lemma StepAbove<V>(b: Builder<V>, s: Shape<V>, lo: int)
    requires WellShaped(s) && Threaded(b) && |b.vertices| >= lo + 4 && Above(b.triangles, lo)
    ensures Above(Step(b, s).triangles, lo)
  {
    var n := |b.vertices|;
    match s
    case Straight(lo', hi') =>
      AboveConcat(b.triangles, [n - 4, n - 3, n - 1, n - 1, n - 2, n - 4], lo);
    case Round(enterLo, enterHi, hub, rim, exitLo, exitHi, negative) =>
      var bridge := Quad(n - 2) + Quad(n);
      var own := CornerOwnTriangles(n, |rim|, negative);
      CornerOwnAbove(n, |rim|, negative);
      assert Above(bridge, lo);
      AboveConcat(b.triangles, bridge, lo);
      AboveConcat(b.triangles + bridge, own, lo);
  }

  /** So does the end cap. */
  lemma EndCapAbove<V>(b: Builder<V>, lo: int)
    requires Threaded(b) && |b.vertices| >= lo + 4 && Above(b.triangles, lo)
    ensures Above(EndCap(b).triangles, lo)
  {
    var n := |b.vertices|;
    AboveConcat(b.triangles, [n - 4, n - 3, n - 1, n - 1, n - 2, n - 4], lo);
  }

  /** When the second point is a corner, the corner does not bridge (the
      builder holds one pair, so `curVertexIndex` is still 0) and no later
      point reaches back: from the corner on, no triangle names vertex 0 or
      1. */
  lemma {:induction false} CornerSecondRun<V>(s: seq<Shape<V>>, i: nat)
    requires AllWellShaped(s) && |s| >= 2 && s[0].Straight? && s[1].Round?
    requires 2 <= i <= |s|
    ensures AllWellShaped(s[..i])
    ensures Threaded(Run(Empty(), s[..i])) && |Run(Empty(), s[..i]).vertices| >= 6
    ensures Above(Run(Empty(), s[..i]).triangles, 2)
    decreases i
  {
    RunExtend(Empty(), s, i - 1);
    if i == 2 {
      CornerSecondBase(s);
    } else {
      CornerSecondRun(s, i - 1);
      StepAbove(Run(Empty(), s[..i - 1]), s[i - 1], 2);
      StepInvariant(Run(Empty(), s[..i - 1]), s[i - 1]);
    }
  }

  /** The first two points: the pair, then the corner's own triangles alone. */
  lemma CornerSecondBase<V>(s: seq<Shape<V>>)
    requires AllWellShaped(s) && |s| >= 2 && s[0].Straight? && s[1].Round?
    ensures AllWellShaped(s[..2])
    ensures var r := Run(Empty(), s[..2]);
      Threaded(r) && |r.vertices| >= 6 && Above(r.triangles, 2)
  {
    RunExtend(Empty(), s, 1);
    RunExtend(Empty(), s, 0);
    assert s[..0] == [];
    var first := Step(Empty(), s[0]);
    assert first == Builder([s[0].lo, s[0].hi], [], 0);
    var r := Step(first, s[1]);
    assert r.triangles == CornerOwnTriangles(2, |s[1].rim|, s[1].negative);
    CornerOwnAbove(2, |s[1].rim|, s[1].negative);
    StepInvariant(first, s[1]);
  }

  /** A stroke whose second point is a corner leaves its first pair out of
      every triangle, so the segment between the first two points is not
      filled. */
  lemma CornerSecondGap<V>(s: seq<Shape<V>>)
    requires AllWellShaped(s) && |s| >= 2 && s[0].Straight? && s[1].Round?
    ensures forall k :: 0 <= k < |Mesh(s).triangles| ==> Mesh(s).triangles[k] >= 2
  {
    CornerSecondRun(s, |s|);
    assert s[..|s|] == s;
    EndCapAbove(Run(Empty(), s), 2);
  }

  lemma {:induction false} FlattenLength<V>(s: seq<Shape<V>>)
    ensures |Flatten(s)| == VertexTotal(s)
    decreases |s|
  {
    if |s| > 0 {
      FlattenLength(s[..|s| - 1]);
      assert |ShapeVertices(s[|s| - 1])| == ShapeVertexCount(s[|s| - 1]);
    }
  }

  /** Every vertex of a run of shapes is a vertex of one of the shapes. */
  lemma {:induction false} FlattenMember<V>(s: seq<Shape<V>>, k: nat)
    requires k < |Flatten(s)|
    ensures exists j :: 0 <= j < |s| && Flatten(s)[k] in ShapeVertices(s[j])
    decreases |s|
  {
    var p := s[..|s| - 1];
    if k < |Flatten(p)| {
      FlattenMember(p, k);
      var j :| 0 <= j < |p| && Flatten(p)[k] in ShapeVertices(p[j]);
      assert Flatten(s)[k] == Flatten(p)[k] && p[j] == s[j];
    } else {
      assert Flatten(s)[k] == ShapeVertices(s[|s| - 1])[k - |Flatten(p)|];
    }
  }

  lemma {:induction false} VertexTotalAtLeastTwice<V>(s: seq<Shape<V>>)
    ensures VertexTotal(s) >= 2 * |s|
    decreases |s|
  {
    if |s| > 0 {
      VertexTotalAtLeastTwice(s[..|s| - 1]);
    }
  }

  /** From an empty builder, with a straight first point, a point bridges
      exactly when it is the third or later: the triangle count of the points
      is TriangleTotal. */
  lemma {:induction false} RunTriangles<V>(s: seq<Shape<V>>)
    requires AllWellShaped(s)
    requires |s| > 0 ==> s[0].Straight?
    ensures |Run(Empty(), s).triangles| == 3 * TriangleTotal(s)
    decreases |s|
  {
    if |s| > 0 {
      var p := s[..|s| - 1];
      PrefixWellShaped(s);
      RunTriangles(p);
      RunInvariant(Empty(), p);
      StepInvariant(Run(Empty(), p), s[|s| - 1]);
      VertexTotalAtLeastTwice(p);
      if |p| == 1 {
        assert p[..0] == [];
        assert VertexTotal(p) == 2;
      }
    }
  }

  /** A whole stroke whose first point is straight: every triangle index names
      an emitted vertex, the vertex list is the points' vertices in order, the
      counts are the reference counts, and once two points were emitted the
      end cap leaves `curVertexIndex` equal to the vertex count. */
  lemma RibbonMesh<V>(s: seq<Shape<V>>)
    requires AllWellShaped(s)
    requires |s| > 0 ==> s[0].Straight?
    ensures IndicesValid(Mesh(s))
    ensures Mesh(s).vertices == Flatten(s)
    ensures |Mesh(s).vertices| == VertexTotal(s)
    ensures |Mesh(s).triangles| == 3 * RibbonTriangleCount(s)
    ensures |s| >= 2 ==> Mesh(s).curVertexIndex == |Mesh(s).vertices|
  {
    var e: Builder<V> := Empty();
    RunInvariant(e, s);
    RunTriangles(s);
    VertexTotalAtLeastTwice(s);
    if |s| == 1 {
      assert s[..0] == [];
      assert VertexTotal(s) == 2;
    }
  }

  lemma {:induction false} StraightTotals<V>(s: seq<Shape<V>>)
    requires forall k :: 0 <= k < |s| ==> s[k].Straight?
    ensures VertexTotal(s) == 2 * |s|
    ensures TriangleTotal(s) == if |s| >= 2 then 2 * (|s| - 2) else 0
    decreases |s|
  {
    if |s| > 0 {
      var p := s[..|s| - 1];
      assert forall k :: 0 <= k < |p| ==> p[k] == s[k];
      StraightTotals(p);
    }
  }

  /** A stroke of n >= 2 straight points: 2n vertices and 2(n-1) triangles. */
  lemma StraightRibbon<V>(s: seq<Shape<V>>)
    requires forall k :: 0 <= k < |s| ==> s[k].Straight?
    requires |s| >= 2
    ensures AllWellShaped(s)
    ensures |Mesh(s).vertices| == 2 * |s|
    ensures |Mesh(s).triangles| == 6 * (|s| - 1)
    ensures Mesh(s).curVertexIndex == 2 * |s|
  {
    RibbonMesh(s);
    StraightTotals(s);
  }

  /** The index bookkeeping never looks at vertex values: emitting shapes of
      the same kinds from builders of the same layout gives the same layout. */
  lemma StepLayout<V, W>(b: Builder<V>, c: Builder<W>, s: Shape<V>, t: Shape<W>)
    requires WellShaped(s) && WellShaped(t) && SameKind(s, t) && SameLayout(b, c)
    ensures SameLayout(Step(b, s), Step(c, t))
  {
  }

  lemma {:induction false} RunLayout<V, W>(b: Builder<V>, c: Builder<W>, s: seq<Shape<V>>, t: seq<Shape<W>>)
    requires AllWellShaped(s) && AllWellShaped(t) && AllSameKind(s, t) && SameLayout(b, c)
    ensures SameLayout(Run(b, s), Run(c, t))
    decreases |s|
  {
    if |s| > 0 {
      var p, q := s[..|s| - 1], t[..|t| - 1];
      PrefixWellShaped(s);
      PrefixWellShaped(t);
      assert AllSameKind(p, q) by {
        forall k | 0 <= k < |p| ensures SameKind(p[k], q[k]) {
          assert p[k] == s[k] && q[k] == t[k];
        }
      }
      RunLayout(b, c, p, q);
      StepLayout(Run(b, p), Run(c, q), s[|s| - 1], t[|t| - 1]);
    }
  }

  lemma MeshLayout<V, W>(s: seq<Shape<V>>, t: seq<Shape<W>>)
    requires AllWellShaped(s) && AllWellShaped(t) && AllSameKind(s, t)
    ensures SameLayout(Mesh(s), Mesh(t))
  {
    RunLayout(Empty(), Empty(), s, t);
  }

  /** The layout of a corner emitted after at least one joint: the hub sits at
      `centerIndex` = old vertex count + 2; the hub triangle
      (centerIndex-1, centerIndex, centerIndex+1) names as its last index the
      first rim vertex, the vertex appended right after the hub; and the first
      fan triangle depends on the turn's sign: for a positive turn it is the
      hub triangle's vertex set again, in the opposite winding. */
  lemma CornerLayout<V>(b: Builder<V>, enterLo: V, enterHi: V, hub: V, rim: seq<V>, exitLo: V, exitHi: V, negative: bool)
    requires |rim| >= 1 && Threaded(b) && |b.vertices| >= 2
    ensures var r := Corner(b, enterLo, enterHi, hub, rim, exitLo, exitHi, negative);
      var n := |b.vertices|;
      var t := |b.triangles| + (if n >= 4 then 12 else 0);
      && r.vertices[n + 2] == hub
      && r.vertices[n + 3] == rim[0]
      && r.vertices[n] == enterLo && r.vertices[n + 1] == enterHi
      && r.triangles[t..t + 3] == [n + 1, n + 2, n + 3]
      && r.triangles[t + 3..t + 6] == (if negative then [n, n + 2, n + 3] else [n + 2, n + 1, n + 3])
      && (n >= 4 ==> r.triangles[|b.triangles|..t] == Quad(n - 2) + Quad(n))
  {
    var r := Corner(b, enterLo, enterHi, hub, rim, exitLo, exitHi, negative);
    var n := |b.vertices|;
    assert r.vertices[n + 2] == ([enterLo, enterHi, hub] + rim + [exitLo, exitHi])[2];
    assert r.vertices[n + 3] == ([enterLo, enterHi, hub] + rim + [exitLo, exitHi])[3];
    var bridge := if n >= 4 then Quad(n - 2) + Quad(n) else [];
    var own := CornerOwnTriangles(n, |rim|, negative);
    var before := b.triangles + bridge;
    var t := |b.triangles| + (if n >= 4 then 12 else 0);
    assert r.triangles == before + own;
    assert |before| == t;
    ConcatSlices(before, own);
    ConcatSlices(b.triangles, bridge);
    assert r.triangles[t..t + 3] == own[..3];
    assert r.triangles[t + 3..t + 6] == own[3..6];
    assert r.triangles[|b.triangles|..t] == before[|b.triangles|..];
  }
}

/**
 * The mesh builder of the drawing demo's main stroke (LineMeshGenerator.cs).
 *
 * For every stroke point it appends either a straight joint or a rounded
 * corner to the vertex and triangle lists, caps the end, and tapers the
 * half-width over a detected deceleration tail. The floating-point geometry
 * (normals, angles, velocities) is not modelled: what the geometry decides at
 * each point is handed in as a `StrokeAnalysis`, and vertex positions are the
 * symbolic `Position`s of module Ribbon. The times of the points and the width
 * arithmetic are modelled exactly, over the reals.
 */
module LineMeshGenerator {
  import opened Ribbon

  /** A sampled stroke point: position and timestamp. */
  datatype LinePoint = LinePoint(position: Vector2, time: real)

  /** The geometric decisions for a whole stroke: one Turn per point, whether
      the speed over the last segment exceeds `endTailVelocityThreshold`, and,
      per point i, whether the acceleration into i points against the velocity
      of the segment ending at i (a negative dot product). */
  datatype StrokeAnalysis = StrokeAnalysis(turns: seq<Turn>, fastEnd: bool, decelerating: seq<bool>)

  predicate Fits(a: StrokeAnalysis, n: int)
  {
    |a.turns| == n && |a.decelerating| == n
  }

  function Times(points: seq<LinePoint>): (r: seq<real>)
    ensures |r| == |points|
    ensures forall i :: 0 <= i < |points| ==> r[i] == points[i].time
  {
    seq(|points|, i requires 0 <= i < |points| => points[i].time)
  }

  /** Timestamps of a stroke only grow; the tail taper divides by a time span. */
  predicate StrictlyIncreasing(times: seq<real>)
  {
    forall i, j :: 0 <= i < j < |times| ==> times[i] < times[j]
  }

  /** A stroke the geometric decisions fit, with strictly growing timestamps. */
  predicate ValidStroke(points: seq<LinePoint>, a: StrokeAnalysis)
  {
    Fits(a, |points|) && StrictlyIncreasing(Times(points))
  }

  // ---------------------------------------------------------------------
  // Tail detection
  // ---------------------------------------------------------------------

  /** Walking back from index i, the first index whose deceleration test fires,
      or 1 when none above 1 does: the largest such index. */
  function StopIndex(decelerating: seq<bool>, i: int): (r: int)
    requires 1 <= i < |decelerating|
    ensures 1 <= r <= i
    ensures decelerating[r] || r == 1
    ensures forall j :: r < j <= i ==> !decelerating[j]
    decreases i
  {
    if decelerating[i] || i == 1 then i else StopIndex(decelerating, i - 1)
  }

  /** The first point of the tail, or n when the stroke has none: the tail is
      looked for only on strokes of more than two points that end fast, and it
      is dropped when it would start after point n-3. */
  function TailStart(n: int, fastEnd: bool, decelerating: seq<bool>): (r: int)
    requires |decelerating| == n
    ensures r == n || 1 <= r <= n - 3
    ensures r < n <==> n > 3 && fastEnd && !decelerating[n - 2]
    ensures r < n ==> (decelerating[r] || r == 1) && forall j :: r < j <= n - 2 ==> !decelerating[j]
  {
    if n > 2 && fastEnd then
      var s := StopIndex(decelerating, n - 2);
      if s > n - 3 then n else s
    else
      n
  }

  /** The duration of the tail: from its first point to the last point. */
  function TailLastTime(times: seq<real>, tailStart: int): real
    requires 0 <= tailStart <= |times| && |times| >= 1
  {
    if tailStart == |times| then 0.0 else times[|times| - 1] - times[tailStart]
  }

  /** The backward scan of the tail detection, for a stroke of at least two
      points: it yields the tail's first point and duration. */
  method AnalyzeTail(times: seq<real>, fastEnd: bool, decelerating: seq<bool>) returns (tailStartIndex: int, tailLastTime: real)
    requires |times| >= 2 && |decelerating| == |times|
    ensures tailStartIndex == TailStart(|times|, fastEnd, decelerating)
    ensures tailLastTime == TailLastTime(times, tailStartIndex)
  {
    var n := |times|;
    tailStartIndex := n;
    tailLastTime := 0.0;
    if n > 2 {
      if fastEnd {
        var i := n - 2;
        while i >= 1
          invariant 1 <= i <= n - 2
          invariant tailStartIndex == n && tailLastTime == 0.0
          invariant StopIndex(decelerating, i) == StopIndex(decelerating, n - 2)
          decreases i
        {
          if decelerating[i] {
            tailStartIndex := i;
            tailLastTime := times[n - 1] - times[i];
            break;
          } else if i == 1 {
            tailStartIndex := i;
            tailLastTime := times[n - 1] - times[i];
            break;
          }
          i := i - 1;
        }
      }
      if tailStartIndex > n - 3 {
        tailStartIndex := n;
        tailLastTime := 0.0;
      }
    }
  }

  // ---------------------------------------------------------------------
  // Width taper
  // ---------------------------------------------------------------------

  const MinWidth: real := 0.001

  /** Unity's Mathf.Clamp: the lower bound is tested first. */
  function Clamp(value: real, min: real, max: real): (r: real)
    ensures min <= max ==> min <= r <= max
    ensures min <= value <= max ==> r == value
    ensures value < min ==> r == min
  {
    if value < min then min else if value > max then max else value
  }

  lemma ClampMonotone(x: real, y: real, min: real, max: real)
    requires x <= y && min <= max
    ensures Clamp(x, min, max) <= Clamp(y, min, max)
  {
  }

  /** The half-width at point i: the original width before the tail; from the
      tail's first point on, the original width scaled by the share of the
      tail's duration still ahead, clamped to [0.001, originalWidth]. */
  function StrokeWidth(points: seq<LinePoint>, a: StrokeAnalysis, originalWidth: real, i: int): (r: real)
    requires ValidStroke(points, a) && 0 <= i < |points|
    ensures originalWidth >= MinWidth ==> MinWidth <= r <= originalWidth
  {
    var times := Times(points);
    var ts := TailStart(|points|, a.fastEnd, a.decelerating);
    if i >= ts then
      assert times[ts] < times[|times| - 1];
      Clamp(originalWidth * (1.0 - (times[i] - times[ts]) / TailLastTime(times, ts)), MinWidth, originalWidth)
    else
      originalWidth
  }

  /** The width DrawLine computes at point i from the tail it found. */
  lemma WidthAtPoint(points: seq<LinePoint>, a: StrokeAnalysis, originalWidth: real, tailStart: int, tailLastTime: real, i: int)
    requires ValidStroke(points, a) && 0 <= i < |points|
    requires tailStart == TailStart(|points|, a.fastEnd, a.decelerating)
    requires tailLastTime == TailLastTime(Times(points), tailStart)
    ensures i >= tailStart ==> tailLastTime > 0.0
    ensures i >= tailStart ==>
      StrokeWidth(points, a, originalWidth, i) ==
        Clamp(originalWidth * (1.0 - (points[i].time - points[tailStart].time) / tailLastTime), MinWidth, originalWidth)
    ensures i < tailStart ==> StrokeWidth(points, a, originalWidth, i) == originalWidth
  {
    if i >= tailStart {
      assert Times(points)[tailStart] < Times(points)[|points| - 1];
    }
  }

  /** The width DrawLine assigns inside the tail is the stroke's width there. */
  lemma TaperedWidth(points: seq<LinePoint>, a: StrokeAnalysis, originalWidth: real, tailStart: int, tailLastTime: real, i: int,
                     portion: real, w: real)
    requires ValidStroke(points, a) && 0 <= i < |points|
    requires tailStart == TailStart(|points|, a.fastEnd, a.decelerating) && tailStart <= i
    requires tailLastTime == TailLastTime(Times(points), tailStart) && tailLastTime != 0.0
    requires portion == (points[i].time - points[tailStart].time) / tailLastTime
    requires w == Clamp(originalWidth * (1.0 - portion), MinWidth, originalWidth)
    ensures w == StrokeWidth(points, a, originalWidth, i)
  {
    WidthAtPoint(points, a, originalWidth, tailStart, tailLastTime, i);
  }

  lemma DivideMonotone(x: real, y: real, d: real)
    requires x <= y && d > 0.0
    ensures x / d <= y / d
  {
    assert y / d - x / d == (y - x) / d;
  }

  lemma ScaleMonotone(k: real, x: real, y: real)
    requires k >= 0.0 && x <= y
    ensures k * x <= k * y
  {
    assert k * y - k * x == k * (y - x);
  }

  /** The taper: full width before the tail and at its first point, the
      minimum width at the last point, every width within [0.001, original]. */
  lemma TailTaper(points: seq<LinePoint>, a: StrokeAnalysis, originalWidth: real)
    requires ValidStroke(points, a) && |points| >= 2
    requires originalWidth >= MinWidth
    ensures var ts := TailStart(|points|, a.fastEnd, a.decelerating);
      && (forall i :: 0 <= i < |points| && i < ts ==> StrokeWidth(points, a, originalWidth, i) == originalWidth)
      && (ts < |points| ==> StrokeWidth(points, a, originalWidth, ts) == originalWidth)
      && (ts < |points| ==> StrokeWidth(points, a, originalWidth, |points| - 1) == MinWidth)
  {
    var times := Times(points);
    var ts := TailStart(|points|, a.fastEnd, a.decelerating);
    if ts < |points| {
      var tl := TailLastTime(times, ts);
      assert times[ts] < times[|times| - 1];
      assert (times[ts] - times[ts]) / tl == 0.0;
      assert (times[|points| - 1] - times[ts]) / tl == 1.0;
    }
  }

  /** Along the tail the half-width never grows. */
  lemma TailNonIncreasing(points: seq<LinePoint>, a: StrokeAnalysis, originalWidth: real, i: int, j: int)
    requires ValidStroke(points, a)
    requires originalWidth >= MinWidth
    requires TailStart(|points|, a.fastEnd, a.decelerating) <= i <= j < |points|
    ensures StrokeWidth(points, a, originalWidth, j) <= StrokeWidth(points, a, originalWidth, i)
  {
    var times := Times(points);
    var ts := TailStart(|points|, a.fastEnd, a.decelerating);
    var tl := TailLastTime(times, ts);
    assert times[ts] < times[|times| - 1];
    assert times[i] <= times[j];
    DivideMonotone(times[i] - times[ts], times[j] - times[ts], tl);
    var pi := 1.0 - (times[i] - times[ts]) / tl;
    var pj := 1.0 - (times[j] - times[ts]) / tl;
    ScaleMonotone(originalWidth, pj, pi);
    ClampMonotone(originalWidth * pj, originalWidth * pi, MinWidth, originalWidth);
  }

  // ---------------------------------------------------------------------
  // What each point emits
  // ---------------------------------------------------------------------

  function StrokeShapes(points: seq<LinePoint>, a: StrokeAnalysis, originalWidth: real): (r: seq<Shape<Position>>)
    requires ValidStroke(points, a) && |points| >= 2
    ensures |r| == |points| && AllWellShaped(r) && r[0].Straight?
  {
    seq(|points|, i requires 0 <= i < |points| => PointShape(|points|, a.turns, i, StrokeWidth(points, a, originalWidth, i)))
  }

  lemma ShapeAt(points: seq<LinePoint>, a: StrokeAnalysis, originalWidth: real, i: int)
    requires ValidStroke(points, a) && |points| >= 2 && 0 <= i < |points|
    ensures StrokeShapes(points, a, originalWidth)[i] == PointShape(|points|, a.turns, i, StrokeWidth(points, a, originalWidth, i))
  {
  }

  /** The mesh DrawLine builds for a stroke of at least two points. */
  function StrokeMesh(points: seq<LinePoint>, a: StrokeAnalysis, originalWidth: real): Builder<Position>
    requires ValidStroke(points, a) && |points| >= 2
  {
    Mesh(StrokeShapes(points, a, originalWidth))
  }

  /** The builder after the shapes of the first i points. */
  function StrokeRun(points: seq<LinePoint>, a: StrokeAnalysis, originalWidth: real, i: int): Builder<Position>
    requires ValidStroke(points, a) && |points| >= 2 && 0 <= i <= |points|
  {
    var s := StrokeShapes(points, a, originalWidth);
    PrefixesWellShaped(s);
    Run(Empty(), s[..i])
  }

  /** Drawing point i extends the run by its shape; after the last point the
      end cap completes the stroke's mesh. */
  lemma StrokeStep(points: seq<LinePoint>, a: StrokeAnalysis, originalWidth: real, i: int)
    requires ValidStroke(points, a) && |points| >= 2 && 0 <= i < |points|
    ensures Step(StrokeRun(points, a, originalWidth, i), PointShape(|points|, a.turns, i, StrokeWidth(points, a, originalWidth, i)))
      == StrokeRun(points, a, originalWidth, i + 1)
    ensures i == |points| - 1 ==>
      EndCap(StrokeRun(points, a, originalWidth, i + 1)) == StrokeMesh(points, a, originalWidth)
  {
    ShapeAt(points, a, originalWidth, i);
    RunExtend(Empty(), StrokeShapes(points, a, originalWidth), i);
  }

  /** Rounded corners are emitted exactly at inner points whose turn is a corner. */
  lemma CornerPlacement(points: seq<LinePoint>, a: StrokeAnalysis, originalWidth: real, i: int)
    requires ValidStroke(points, a) && |points| >= 2
    requires 0 <= i < |points|
    ensures StrokeShapes(points, a, originalWidth)[i].Round? <==> 0 < i < |points| - 1 && a.turns[i].isCorner
    ensures StrokeShapes(points, a, originalWidth)[i].Round? ==>
      |StrokeShapes(points, a, originalWidth)[i].rim| == 1 + (if a.turns[i].incTimes > 2 then a.turns[i].incTimes - 2 else 0)
  {
  }

  /** The mesh of a stroke: every index of the triangle list names a vertex, the
      counts are the reference counts of its shapes, and the end cap leaves
      `curVertexIndex` at the vertex count. */
  lemma StrokeMeshValid(points: seq<LinePoint>, a: StrokeAnalysis, originalWidth: real)
    requires ValidStroke(points, a) && |points| >= 2
    ensures var m := StrokeMesh(points, a, originalWidth);
      var s := StrokeShapes(points, a, originalWidth);
      && IndicesValid(m)
      && m.vertices == Flatten(s)
      && |m.vertices| == VertexTotal(s)
      && |m.triangles| == 3 * RibbonTriangleCount(s)
      && m.curVertexIndex == |m.vertices|
  {
    RibbonMesh(StrokeShapes(points, a, originalWidth));
  }

  /** A stroke of n points with no corner: 2n vertices and 2(n-1) triangles. */
  lemma StraightStroke(points: seq<LinePoint>, a: StrokeAnalysis, originalWidth: real)
    requires ValidStroke(points, a) && |points| >= 2
    requires forall i :: 0 < i < |points| - 1 ==> !a.turns[i].isCorner
    ensures |StrokeMesh(points, a, originalWidth).vertices| == 2 * |points|
    ensures |StrokeMesh(points, a, originalWidth).triangles| == 6 * (|points| - 1)
  {
    var s := StrokeShapes(points, a, originalWidth);
    assert forall k :: 0 <= k < |s| ==> s[k].Straight?;
    StraightRibbon(s);
  }

  /** The vertices one point emits all belong to it, offset ones at its width;
      only corners emit a hub. */
  lemma PointShapeVertices(n: nat, turns: seq<Turn>, i: nat, w: real)
    requires |turns| == n && i < n && n >= 2
    ensures forall v :: v in ShapeVertices(PointShape(n, turns, i, w)) ==>
      && v.point == i
      && (v.Offset? ==> v.thickness == w)
      && (v.Center? ==> 0 < i < n - 1 && turns[i].isCorner)
  {
    var s := PointShape(n, turns, i, w);
    if s.Round? {
      forall v | v in ShapeVertices(s)
        ensures v.point == i && (v.Offset? ==> v.thickness == w) && (v.Center? ==> 0 < i < n - 1 && turns[i].isCorner)
      {
        if v in s.rim {
          var k :| 0 <= k < |s.rim| && s.rim[k] == v;
        }
      }
    }
  }

  /** Every vertex of the mesh belongs to a stroke point and lies at that
      point's half-width (a hub lies on the point itself, at a corner): with a
      tail, the taper is carried by the vertices. */
  lemma StrokeVertices(points: seq<LinePoint>, a: StrokeAnalysis, originalWidth: real, k: int)
    requires ValidStroke(points, a) && |points| >= 2
    requires 0 <= k < |StrokeMesh(points, a, originalWidth).vertices|
    ensures var v := StrokeMesh(points, a, originalWidth).vertices[k];
      && v.point < |points|
      && (v.Offset? ==> v.thickness == StrokeWidth(points, a, originalWidth, v.point))
      && (v.Center? ==> 0 < v.point < |points| - 1 && a.turns[v.point].isCorner)
  {
    var s := StrokeShapes(points, a, originalWidth);
    RibbonMesh(s);
    FlattenMember(s, k);
    var j :| 0 <= j < |s| && Flatten(s)[k] in ShapeVertices(s[j]);
    PointShapeVertices(|points|, a.turns, j, StrokeWidth(points, a, originalWidth, j));
  }

  // ---------------------------------------------------------------------
  // The component
  // ---------------------------------------------------------------------

  /** The colours of `count` vertices of one colour. */
  function Repeat(c: Color32, count: int): (r: seq<Color32>)
    requires count >= 0
    ensures |r| == count
  {
    seq(count, _ => c)
  }

  lemma RepeatSnoc(prefix: seq<Color32>, c: Color32, k: nat)
    ensures prefix + Repeat(c, k) + [c] == prefix + Repeat(c, k + 1)
  {
    assert Repeat(c, k) + [c] == Repeat(c, k + 1);
  }

  lemma RepeatConcat(c: Color32, x: nat, y: nat)
    ensures Repeat(c, x) + Repeat(c, y) == Repeat(c, x + y)
  {
  }

  lemma RepeatParts(c0: seq<Color32>, c1: seq<Color32>, c2: seq<Color32>, c3: seq<Color32>, c: Color32, k: nat)
    requires c1 == c0 + [c] + [c] && c2 == c1 + [c] + [c] && c3 == c2 + Repeat(c, k) + [c] + [c]
    ensures c3 == c0 + Repeat(c, 6 + k)
  {
    assert c3 == c0 + ([c, c, c, c] + Repeat(c, k) + [c, c]);
    assert [c, c, c, c] + Repeat(c, k) + [c, c] == Repeat(c, 6 + k);
  }

  /** The mesh handed to the mesh filter. */
  datatype MeshData = MeshData(vertices: seq<Position>, triangles: seq<int>, colors32: seq<Color32>)

  class LineMeshGenerator {
    var points: seq<LinePoint>
    var width: real
    var originalWidth: real
    var color: Color32
    var vertexColors: seq<Color32>
    var mesh: MeshData

    /** The serialized fields, with the width and colour the inspector sets. */
    constructor (width: real, color: Color32)
      ensures this.width == width && this.color == color
      ensures points == [] && vertexColors == [] && mesh == MeshData([], [], [])
      ensures originalWidth == 0.0
    {
      points := [];
      this.width := width;
      originalWidth := 0.0;
      this.color := color;
      vertexColors := [];
      mesh := MeshData([], [], []);
    }

    /** The width set in the inspector is remembered as the untapered width. */
    method OnEnable()
      modifies this`originalWidth
      ensures originalWidth == width
    {
      originalWidth := width;
    }

    /** What DrawLine leaves behind for `analysis`: with fewer than two points,
        the width reset and no colours; otherwise the stroke's mesh, one colour
        per vertex, and the width of the last point. */
    predicate Drawn(analysis: StrokeAnalysis)
      reads this
    {
      && ValidStroke(points, analysis)
      && (|points| < 2 ==> width == originalWidth && vertexColors == [])
      && (|points| >= 2 ==>
            && mesh.vertices == StrokeMesh(points, analysis, originalWidth).vertices
            && mesh.triangles == StrokeMesh(points, analysis, originalWidth).triangles
            && mesh.colors32 == vertexColors
            && vertexColors == Repeat(color, |mesh.vertices|)
            && width == StrokeWidth(points, analysis, originalWidth, |points| - 1))
    }

    method RefreshPoints(newPoints: seq<LinePoint>, analysis: StrokeAnalysis)
      requires ValidStroke(newPoints, analysis)
      modifies this`points, this`width, this`vertexColors, this`mesh
      ensures points == newPoints && Drawn(analysis)
      ensures |newPoints| < 2 ==> mesh == old(mesh)
    {
      points := newPoints;
      DrawLine(analysis);
    }

    /** Rebuilds the mesh of the current points. With fewer than two points it
        returns before uploading anything, so the previous mesh stays. */
    method DrawLine(analysis: StrokeAnalysis)
      requires ValidStroke(points, analysis)
      modifies this`width, this`vertexColors, this`mesh
      ensures Drawn(analysis)
      ensures |points| < 2 ==> mesh == old(mesh)
    {
      width := originalWidth;
      vertexColors := [];
      if |points| < 2 {
        return;
      }
      var pts, ow := points, originalWidth;
      var tailStartIndex, tailLastTime := AnalyzeTail(Times(pts), analysis.fastEnd, analysis.decelerating);
      var ctx := DrawPoints(pts, analysis, ow, tailStartIndex, tailLastTime);
      mesh := MeshData(ctx.vertices, ctx.triangles, vertexColors);
    }

    /** DrawLine's loop over the points, after the tail is known: it sets each
        point's width and appends its shape, and caps the end after the last. */
    method DrawPoints(pts: seq<LinePoint>, analysis: StrokeAnalysis, ow: real, tailStartIndex: int, tailLastTime: real)
      returns (ctx: Builder<Position>)
      requires ValidStroke(pts, analysis) && |pts| >= 2
      requires tailStartIndex == TailStart(|pts|, analysis.fastEnd, analysis.decelerating)
      requires tailLastTime == TailLastTime(Times(pts), tailStartIndex)
      requires width == ow && vertexColors == []
      modifies this`width, this`vertexColors
      ensures ctx == StrokeMesh(pts, analysis, ow)
      ensures vertexColors == Repeat(color, |ctx.vertices|)
      ensures width == StrokeWidth(pts, analysis, ow, |pts| - 1)
    {
      var n := |pts|;
      ctx := Empty();
      var curTriangleIndex := 0;
      assert ctx == StrokeRun(pts, analysis, ow, 0);
      for i := 0 to n
        invariant ctx == if i < n then StrokeRun(pts, analysis, ow, i) else StrokeMesh(pts, analysis, ow)
        invariant curTriangleIndex == |ctx.triangles|
        invariant vertexColors == Repeat(color, |ctx.vertices|)
        invariant width == if i == 0 then ow else StrokeWidth(pts, analysis, ow, i - 1)
      {
        ctx, curTriangleIndex := DrawPass(pts, analysis, ow, tailStartIndex, tailLastTime, i, ctx, curTriangleIndex);
      }
    }

    /** The body of DrawLine's loop for point i: the width update, then the
        point's geometry. */
    method DrawPass(pts: seq<LinePoint>, analysis: StrokeAnalysis, ow: real, tailStartIndex: int, tailLastTime: real, i: int,
                    ctx: Builder<Position>, curTriangleIndex: int)
      returns (result: Builder<Position>, curTriangleIndexOut: int)
      requires ValidStroke(pts, analysis) && |pts| >= 2 && 0 <= i < |pts|
      requires tailStartIndex == TailStart(|pts|, analysis.fastEnd, analysis.decelerating)
      requires tailLastTime == TailLastTime(Times(pts), tailStartIndex)
      requires ctx == StrokeRun(pts, analysis, ow, i) && curTriangleIndex == |ctx.triangles|
      requires vertexColors == Repeat(color, |ctx.vertices|)
      requires width == if i == 0 then ow else StrokeWidth(pts, analysis, ow, i - 1)
      modifies this`width, this`vertexColors
      ensures result == if i < |pts| - 1 then StrokeRun(pts, analysis, ow, i + 1) else StrokeMesh(pts, analysis, ow)
      ensures curTriangleIndexOut == |result.triangles|
      ensures vertexColors == Repeat(color, |result.vertices|)
      ensures width == StrokeWidth(pts, analysis, ow, i)
    {
      TaperWidth(pts, analysis, ow, tailStartIndex, tailLastTime, i);
      StrokeStep(pts, analysis, ow, i);
      result, curTriangleIndexOut := DrawPoint(|pts|, analysis.turns, i, width, ctx, curTriangleIndex);
    }

    /** The width update at the head of DrawLine's loop: from the tail start
        on, the width tapers with the time elapsed since the tail start. */
    method TaperWidth(pts: seq<LinePoint>, analysis: StrokeAnalysis, ow: real, tailStartIndex: int, tailLastTime: real, i: int)
      requires ValidStroke(pts, analysis) && 0 <= i < |pts|
      requires tailStartIndex == TailStart(|pts|, analysis.fastEnd, analysis.decelerating)
      requires tailLastTime == TailLastTime(Times(pts), tailStartIndex)
      requires width == if i == 0 then ow else StrokeWidth(pts, analysis, ow, i - 1)
      modifies this`width
      ensures width == StrokeWidth(pts, analysis, ow, i)
    {
      WidthAtPoint(pts, analysis, ow, tailStartIndex, tailLastTime, i);
      if i > 0 {
        WidthAtPoint(pts, analysis, ow, tailStartIndex, tailLastTime, i - 1);
      }
      if i >= tailStartIndex {
        var curTimePortion := (pts[i].time - pts[tailStartIndex].time) / tailLastTime;
        width := Clamp(ow * (1.0 - curTimePortion), MinWidth, ow);
        TaperedWidth(pts, analysis, ow, tailStartIndex, tailLastTime, i, curTimePortion, width);
      }
    }

    /** One pass of DrawLine's loop, after the width of point i is known: a
        rounded corner at an inner corner point, otherwise a joint along the
        point's own segment (the last point: the segment before it), and after
        the last point the end triangles. */
    method DrawPoint(n: nat, turns: seq<Turn>, i: nat, width: real, ctx: Builder<Position>, curTriangleIndex: int)
      returns (result: Builder<Position>, curTriangleIndexOut: int)
      requires |turns| == n && i < n && n >= 2
      requires vertexColors == Repeat(color, |ctx.vertices|)
      modifies this`vertexColors
      ensures result == if i < n - 1 then Step(ctx, PointShape(n, turns, i, width))
                        else EndCap(Step(ctx, PointShape(n, turns, i, width)))
      ensures curTriangleIndexOut == curTriangleIndex + |result.triangles| - |ctx.triangles|
      ensures vertexColors == Repeat(color, |result.vertices|)
    {
      RepeatConcat(color, |ctx.vertices|, 2);
      if i != n - 1 {
        if i > 0 && i < n - 1 {
          var turn := turns[i];
          if turn.isCorner {
            result, curTriangleIndexOut := DrawVerticesForCornerOptimized(i, SegmentNormal(i - 1), turn.negative, turn.incTimes, width, ctx, curTriangleIndex);
            RepeatConcat(color, |ctx.vertices|, |result.vertices| - |ctx.vertices|);
            return;
          } else {
            result, curTriangleIndexOut := DrawVerticesForPoint(i, SegmentNormal(i), width, ctx, curTriangleIndex);
          }
        } else {
          result, curTriangleIndexOut := DrawVerticesForPoint(i, SegmentNormal(i), width, ctx, curTriangleIndex);
        }
      } else {
        result, curTriangleIndexOut := DrawVerticesForPoint(i, SegmentNormal(i - 1), width, ctx, curTriangleIndex);
        result, curTriangleIndexOut := FillEndTriangles(result, curTriangleIndexOut);
      }
    }

    /** A corner at `curPoint`, entered along `normal`: the entry pair, bridged
        to the two pairs before it once `curVertexIndex > 1`; the hub and its
        triangle; the first rim vertex and triangle; one rim vertex and fan
        triangle per further increment; and the exit pair, left unbridged for
        the next joint. */
    method DrawVerticesForCornerOptimized(curPoint: nat, normal: Normal, negative: bool, incTimes: int, thickness: real,
                                          ctx: Builder<Position>, curTriangleIndex: int)
      returns (result: Builder<Position>, curTriangleIndexOut: int)
      modifies this`vertexColors
      ensures result == Step(ctx, CornerShape(curPoint, normal, negative, incTimes, thickness))
      ensures curTriangleIndexOut == curTriangleIndex + |result.triangles| - |ctx.triangles|
      ensures |result.vertices| >= |ctx.vertices|
      ensures vertexColors == old(vertexColors) + Repeat(color, |result.vertices| - |ctx.vertices|)
    {
      ghost var rim := CornerRim(curPoint, normal, negative, incTimes, thickness);
      ghost var colors0 := vertexColors;
      var entry, hub, fan;
      entry, curTriangleIndexOut := DrawCornerEntry(curPoint, normal, thickness, ctx, curTriangleIndex);
      ghost var colors1 := vertexColors;
      var centerIndex;
      hub, curTriangleIndexOut, centerIndex := DrawCornerHub(curPoint, normal, negative, thickness, entry, curTriangleIndexOut);
      ghost var colors2 := vertexColors;
      fan, curTriangleIndexOut := DrawCornerRim(curPoint, normal, negative, incTimes, thickness, centerIndex, hub, curTriangleIndexOut);
      var verticesList := AddVert(fan.vertices, Offset(curPoint, Minus, thickness, Turned(normal)));
      verticesList := AddVert(verticesList, Offset(curPoint, Plus, thickness, Turned(normal)));
      result := Builder(verticesList, fan.triangles, fan.curVertexIndex + 1);
      ConcatAssoc(fan.vertices, [Offset(curPoint, Minus, thickness, Turned(normal))], [Offset(curPoint, Plus, thickness, Turned(normal))]);
      CornerPhases(ctx, Offset(curPoint, Minus, thickness, normal), Offset(curPoint, Plus, thickness, normal), Center(curPoint),
                   rim, Offset(curPoint, Minus, thickness, Turned(normal)), Offset(curPoint, Plus, thickness, Turned(normal)), negative);
      RepeatParts(colors0, colors1, colors2, vertexColors, color, |rim| - 1);
    }

    /** The entry pair of a corner, against which the two pairs before it are
        bridged once `curVertexIndex > 1`. */
    method DrawCornerEntry(curPoint: nat, normal: Normal, thickness: real, ctx: Builder<Position>, curTriangleIndex: int)
      returns (result: Builder<Position>, curTriangleIndexOut: int)
      modifies this`vertexColors
      ensures result == CornerEntry(ctx, Offset(curPoint, Minus, thickness, normal), Offset(curPoint, Plus, thickness, normal))
      ensures curTriangleIndexOut == curTriangleIndex + |result.triangles| - |ctx.triangles|
      ensures vertexColors == old(vertexColors) + [color] + [color]
    {
      ghost var c := ctx.curVertexIndex;
      var verticesList := AddVert(ctx.vertices, Offset(curPoint, Minus, thickness, normal));
      verticesList := AddVert(verticesList, Offset(curPoint, Plus, thickness, normal));
      var trianglesList := ctx.triangles;
      var curVertexIndex := ctx.curVertexIndex;
      curTriangleIndexOut := curTriangleIndex;
      if curVertexIndex > 1 && |verticesList| >= 4 {
        trianglesList, curTriangleIndexOut := AddTriangle(trianglesList, curTriangleIndexOut, curVertexIndex - 2, curVertexIndex - 1, curVertexIndex + 1);
        trianglesList, curTriangleIndexOut := AddTriangle(trianglesList, curTriangleIndexOut, curVertexIndex + 1, curVertexIndex, curVertexIndex - 2);
        ConcatAssoc(ctx.triangles, [c - 2, c - 1, c + 1], [c + 1, c, c - 2]);
        ghost var once := trianglesList;
        curVertexIndex := curVertexIndex + 2;
        trianglesList, curTriangleIndexOut := AddTriangle(trianglesList, curTriangleIndexOut, curVertexIndex - 2, curVertexIndex - 1, curVertexIndex + 1);
        trianglesList, curTriangleIndexOut := AddTriangle(trianglesList, curTriangleIndexOut, curVertexIndex + 1, curVertexIndex, curVertexIndex - 2);
        ConcatAssoc(once, [c, c + 1, c + 3], [c + 3, c + 2, c]);
        ConcatAssoc(ctx.triangles, Quad(c), Quad(c + 2));
      } else {
        curVertexIndex := |verticesList| - 2;
      }
      ConcatAssoc(ctx.vertices, [Offset(curPoint, Minus, thickness, normal)], [Offset(curPoint, Plus, thickness, normal)]);
      result := Builder(verticesList, trianglesList, curVertexIndex);
    }

    /** The hub of a corner and its triangle, then the first rim vertex (the
        entering normal rotated by one increment, on the outer side of the
        turn) and the first rim triangle, whose winding follows the turn. */
    method DrawCornerHub(curPoint: nat, normal: Normal, negative: bool, thickness: real, ctx: Builder<Position>, curTriangleIndex: int)
      returns (result: Builder<Position>, curTriangleIndexOut: int, centerIndex: int)
      modifies this`vertexColors
      ensures curTriangleIndexOut == curTriangleIndex + 6 && |result.triangles| == |ctx.triangles| + 6
      ensures result == CornerHub(ctx, Center(curPoint), Offset(curPoint, if negative then Minus else Plus, thickness, Stepped(normal, 1)), negative)
      ensures centerIndex == ctx.curVertexIndex + 2
      ensures vertexColors == old(vertexColors) + [color] + [color]
    {
      var side := if negative then Minus else Plus;
      var verticesList := AddVert(ctx.vertices, Center(curPoint));
      centerIndex := ctx.curVertexIndex + 2;
      var trianglesList;
      trianglesList, curTriangleIndexOut := AddTriangle(ctx.triangles, curTriangleIndex, centerIndex - 1, centerIndex, centerIndex + 1);
      var curVertexIndex := ctx.curVertexIndex + 3;
      verticesList := AddVert(verticesList, Offset(curPoint, side, thickness, Stepped(normal, 1)));
      ghost var hubTriangle := [centerIndex - 1, centerIndex, centerIndex + 1];
      if negative {
        trianglesList, curTriangleIndexOut := AddTriangle(trianglesList, curTriangleIndexOut, curVertexIndex - 3, curVertexIndex - 1, curVertexIndex);
      } else {
        trianglesList, curTriangleIndexOut := AddTriangle(trianglesList, curTriangleIndexOut, curVertexIndex - 1, curVertexIndex - 2, curVertexIndex);
      }
      ghost var firstRim := trianglesList[|ctx.triangles| + 3..];
      assert trianglesList == ctx.triangles + hubTriangle + firstRim;
      assert CornerOwnTriangles(ctx.curVertexIndex, 1, negative) == hubTriangle + firstRim + [];
      ConcatAssoc(ctx.triangles, hubTriangle, firstRim);
      ConcatAssoc(ctx.vertices, [Center(curPoint)], [Offset(curPoint, side, thickness, Stepped(normal, 1))]);
      result := Builder(verticesList, trianglesList, curVertexIndex);
    }

    /** The rim loop of a corner: for each increment from the second to the
        last, a rim vertex offset to the outer side of the turn and a fan
        triangle from the hub to it and the rim vertex before it. */
    method DrawCornerRim(curPoint: nat, normal: Normal, negative: bool, incTimes: int, thickness: real, centerIndex: int,
                         ctx: Builder<Position>, curTriangleIndex: int)
      returns (result: Builder<Position>, curTriangleIndexOut: int)
      modifies this`vertexColors
      requires centerIndex == ctx.curVertexIndex - 1
      ensures result == CornerFan(ctx, CornerRim(curPoint, normal, negative, incTimes, thickness)[1..], negative)
      ensures curTriangleIndexOut == curTriangleIndex + |result.triangles| - |ctx.triangles|
      ensures vertexColors == old(vertexColors) + Repeat(color, |CornerRim(curPoint, normal, negative, incTimes, thickness)| - 1)
    {
      ghost var rest := CornerRim(curPoint, normal, negative, incTimes, thickness)[1..];
      CornerRimAt(curPoint, normal, negative, incTimes, thickness);
      var side := if negative then Minus else Plus;
      var verticesList, trianglesList, curVertexIndex := ctx.vertices, ctx.triangles, ctx.curVertexIndex;
      curTriangleIndexOut := curTriangleIndex;
      assert vertexColors == old(vertexColors) + Repeat(color, 0);
      var i := 2;
      while i < incTimes
        invariant 2 <= i <= |rest| + 2
        invariant verticesList == ctx.vertices + rest[..i - 2]
        invariant trianglesList == ctx.triangles + FanTriangles(centerIndex, ctx.curVertexIndex, i - 2, negative)
        invariant curVertexIndex == ctx.curVertexIndex + i - 2
        invariant curTriangleIndexOut == curTriangleIndex + |trianglesList| - |ctx.triangles|
        invariant vertexColors == old(vertexColors) + Repeat(color, i - 2)
        decreases incTimes - i
      {
        verticesList := AddVert(verticesList, Offset(curPoint, side, thickness, Stepped(normal, i)));
        assert rest[..i - 1] == rest[..i - 2] + [rest[i - 2]];
        ConcatAssoc(ctx.vertices, rest[..i - 2], [rest[i - 2]]);
        RepeatSnoc(old(vertexColors), color, i - 2);
        ghost var fan := FanTriangle(centerIndex, curVertexIndex, negative);
        if negative {
          trianglesList, curTriangleIndexOut := AddTriangle(trianglesList, curTriangleIndexOut, centerIndex, curVertexIndex + 1, curVertexIndex);
        } else {
          trianglesList, curTriangleIndexOut := AddTriangle(trianglesList, curTriangleIndexOut, centerIndex, curVertexIndex, curVertexIndex + 1);
        }
        ConcatAssoc(ctx.triangles, FanTriangles(centerIndex, ctx.curVertexIndex, i - 2, negative), fan);
        curVertexIndex := curVertexIndex + 1;
        i := i + 1;
      }
      assert rest[..i - 2] == rest;
      result := Builder(verticesList, trianglesList, curVertexIndex);
    }

    /** A straight joint at `curPoint` along `normal`: two vertices, and once
        `curVertexIndex > 1` the quad between the two pairs before them. */
    method DrawVerticesForPoint(curPoint: nat, normal: Normal, thickness: real, ctx: Builder<Position>, curTriangleIndex: int)
      returns (result: Builder<Position>, curTriangleIndexOut: int)
      modifies this`vertexColors
      ensures result == Step(ctx, JointShape(curPoint, normal, thickness))
      ensures curTriangleIndexOut == curTriangleIndex + |result.triangles| - |ctx.triangles|
      ensures |result.vertices| == |ctx.vertices| + 2
      ensures vertexColors == old(vertexColors) + Repeat(color, 2)
    {
      var verticesList := AddVert(ctx.vertices, Offset(curPoint, Minus, thickness, normal));
      verticesList := AddVert(verticesList, Offset(curPoint, Plus, thickness, normal));
      var trianglesList := ctx.triangles;
      var curVertexIndex := ctx.curVertexIndex;
      curTriangleIndexOut := curTriangleIndex;
      if curVertexIndex > 1 && |verticesList| >= 4 {
        trianglesList, curTriangleIndexOut := AddTriangle(trianglesList, curTriangleIndexOut, curVertexIndex - 2, curVertexIndex - 1, curVertexIndex + 1);
        trianglesList, curTriangleIndexOut := AddTriangle(trianglesList, curTriangleIndexOut, curVertexIndex + 1, curVertexIndex, curVertexIndex - 2);
        curVertexIndex := curVertexIndex + 2;
      } else {
        curVertexIndex := |verticesList| - 2;
      }
      result := Builder(verticesList, trianglesList, curVertexIndex);
    }

    /** The end cap: the quad the last joint left pending. */
    method FillEndTriangles(ctx: Builder<Position>, curTriangleIndex: int) returns (result: Builder<Position>, curTriangleIndexOut: int)
      ensures result == EndCap(ctx)
      ensures curTriangleIndexOut == curTriangleIndex + |result.triangles| - |ctx.triangles|
    {
      var trianglesList := ctx.triangles;
      var curVertexIndex := ctx.curVertexIndex;
      curTriangleIndexOut := curTriangleIndex;
      if curVertexIndex > 1 && |ctx.vertices| >= 4 {
        trianglesList, curTriangleIndexOut := AddTriangle(trianglesList, curTriangleIndexOut, curVertexIndex - 2, curVertexIndex - 1, curVertexIndex + 1);
        trianglesList, curTriangleIndexOut := AddTriangle(trianglesList, curTriangleIndexOut, curVertexIndex + 1, curVertexIndex, curVertexIndex - 2);
        curVertexIndex := curVertexIndex + 2;
      }
      result := Builder(ctx.vertices, trianglesList, curVertexIndex);
    }

    /** A vertex and, in the parallel colour list, the component's colour. */
    method AddVert(verticesList: seq<Position>, newVertex: Position) returns (result: seq<Position>)
      modifies this`vertexColors
      ensures result == verticesList + [newVertex]
      ensures vertexColors == old(vertexColors) + [color]
    {
      result := verticesList + [newVertex];
      vertexColors := vertexColors + [color];
    }

    /** One triangle: three indices, and the triangle index advanced by 3. */
    method AddTriangle(trianglesList: seq<int>, curTriangleIndex: int, index0: int, index1: int, index2: int)
      returns (result: seq<int>, curTriangleIndexOut: int)
      ensures result == trianglesList + [index0, index1, index2]
      ensures curTriangleIndexOut == curTriangleIndex + 3
    {
      result := trianglesList + [index0, index1, index2];
      curTriangleIndexOut := curTriangleIndex + 3;
    }
  }
}

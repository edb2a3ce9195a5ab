/**
 * The occupancy grid of the drawing demo (GridManager.cs): an H x V grid of
 * blocked cells over the canvas, with a blocked border, refreshed from a
 * physics probe, and a tracer that walks the blocked cells bordering the
 * free region around a seed cell (a depth-first walk over 8-neighbours with
 * an explicit stack, a visited set and an iteration cap).
 *
 * The probe (a raycast at each cell centre) is a parameter; the seed is given
 * as a grid cell, not as a mouse position.
 */
module GridManager {

  datatype Vector2Int = Vector2Int(x: int, y: int)

  /** MoveDirection: Left, LeftUp, Up, RightUp, Right, RightDown, Down,
      LeftDown are 0 .. 7, in that order. */
  type MoveDirection = d: int | 0 <= d < 8

  const Left: MoveDirection := 0

  /** `eightDirections`: the grid step of each direction, y pointing up. */
  function Step(d: MoveDirection): (r: Vector2Int)
    ensures -1 <= r.x <= 1 && -1 <= r.y <= 1 && r != Vector2Int(0, 0)
  {
    match d
    case 0 => Vector2Int(-1, 0)
    case 1 => Vector2Int(-1, 1)
    case 2 => Vector2Int(0, 1)
    case 3 => Vector2Int(1, 1)
    case 4 => Vector2Int(1, 0)
    case 5 => Vector2Int(1, -1)
    case 6 => Vector2Int(0, -1)
    case 7 => Vector2Int(-1, -1)
  }

  function Neighbour(p: Vector2Int, d: MoveDirection): Vector2Int
  {
    Vector2Int(p.x + Step(d).x, p.y + Step(d).y)
  }

  /** The direction back the way one came. */
  function Opposite(d: MoveDirection): (r: MoveDirection)
    ensures r == (d + 4) % 8
  {
    if d < 4 then d + 4 else d - 4
  }

  /** The tracer's test `d == i - 4 || d == i + 4` skips exactly the opposite
      direction, and that direction steps straight back. */
  lemma SkipIsOpposite(d: MoveDirection, i: MoveDirection)
    ensures (d == i - 4 || d == i + 4) <==> i == Opposite(d)
  {
  }

  lemma OppositeStepsBack(p: Vector2Int, d: MoveDirection)
    ensures Neighbour(Neighbour(p, d), Opposite(d)) == p
  {
    match d
    case 0 => case 1 => case 2 => case 3 => case 4 => case 5 => case 6 => case 7 =>
  }

  /** The eight steps are the eight distinct neighbours of a cell. */
  lemma StepsDistinct(d: MoveDirection, e: MoveDirection)
    ensures Step(d) == Step(e) <==> d == e
  {
  }

  /** A traced cell and the direction the walk entered it by. */
  datatype HullPoint = HullPoint(gridPos: Vector2Int, moveDirection: MoveDirection)

  /** What one scan of the eight neighbours of the current point finds. */
  datatype ScanResult = Closed | Found(next: HullPoint) | NotFound

  /** The grid positions of a list of hull points. */
  function Positions(s: seq<HullPoint>): set<Vector2Int>
  {
    set k | 0 <= k < |s| :: s[k].gridPos
  }

  /** p is the cell one step from q in p's direction, that step not
      reversing q's own direction. */
  predicate EnteredFrom(q: HullPoint, p: HullPoint)
  {
    p.gridPos == Neighbour(q.gridPos, p.moveDirection) && p.moveDirection != Opposite(q.moveDirection)
  }

  predicate NoDuplicatePositions(s: seq<HullPoint>)
  {
    forall j, k :: 0 <= j < k < |s| ==> s[j].gridPos != s[k].gridPos
  }

  class GridManager {
    const horizontalResolution: int
    const verticalResolution: int
    var gridBlock: array2?<bool>

    /** The serialized resolution (2560 x 1440 by default); the grid is made in Start. */
    constructor (horizontalResolution: int, verticalResolution: int)
      requires horizontalResolution > 0 && verticalResolution > 0
      ensures this.horizontalResolution == horizontalResolution && this.verticalResolution == verticalResolution
      ensures gridBlock == null && Valid()
    {
      this.horizontalResolution := horizontalResolution;
      this.verticalResolution := verticalResolution;
      gridBlock := null;
    }

    /** Once made, the grid has the serialized resolution. */
    predicate Valid()
      reads this
    {
      && horizontalResolution > 0 && verticalResolution > 0
      && (gridBlock != null ==> gridBlock.Length0 == horizontalResolution && gridBlock.Length1 == verticalResolution)
    }

    predicate InGrid(p: Vector2Int)
    {
      0 <= p.x < horizontalResolution && 0 <= p.y < verticalResolution
    }

    predicate OnBorder(x: int, y: int)
    {
      x == 0 || x == horizontalResolution - 1 || y == 0 || y == verticalResolution - 1
    }

    predicate Blocked(p: Vector2Int)
      requires Valid() && gridBlock != null && InGrid(p)
      reads this, gridBlock
    {
      gridBlock[p.x, p.y]
    }

    /** An in-bounds neighbour that is not blocked. */
    predicate OpenNeighbour(p: Vector2Int, d: MoveDirection)
      requires Valid() && gridBlock != null
      reads this, gridBlock
    {
      InGrid(Neighbour(p, d)) && !Blocked(Neighbour(p, d))
    }

    /** The number of directions below k leading to an open neighbour. */
    function OpenCount(p: Vector2Int, k: int): (r: nat)
      requires Valid() && gridBlock != null && 0 <= k <= 8
      reads this, gridBlock
      decreases k
    {
      if k == 0 then 0 else OpenCount(p, k - 1) + (if OpenNeighbour(p, k - 1) then 1 else 0)
    }

    lemma {:induction false} OpenCountRange(p: Vector2Int, k: int)
      requires Valid() && gridBlock != null && 0 <= k <= 8
      ensures OpenCount(p, k) <= k
      ensures OpenCount(p, k) > 0 <==> exists d: MoveDirection :: d < k && OpenNeighbour(p, d)
      decreases k
    {
      if k > 0 {
        OpenCountRange(p, k - 1);
      }
    }

    /** A cell the tracer may step to from `cur` in direction d: not back the
        way it came, not the start, in bounds, blocked, next to an open cell
        and not yet traced. */
    predicate Candidate(cur: HullPoint, start: Vector2Int, visited: set<Vector2Int>, d: MoveDirection)
      requires Valid() && gridBlock != null
      reads this, gridBlock
    {
      var p := Neighbour(cur.gridPos, d);
      && d != Opposite(cur.moveDirection)
      && p != start
      && InGrid(p) && Blocked(p)
      && OpenCount(p, 8) > 0
      && p !in visited
    }

    /** Direction d, not the way back, leads to the start cell. */
    predicate BackToStart(cur: HullPoint, start: Vector2Int, d: MoveDirection)
    {
      d != Opposite(cur.moveDirection) && Neighbour(cur.gridPos, d) == start
    }

    /** The hull list: no position twice, and every point after the first a
        blocked in-bounds cell next to an open cell, entered from an earlier
        point by a step that does not reverse that point's direction. */
    predicate Traced(s: seq<HullPoint>)
      requires Valid() && gridBlock != null
      reads this, gridBlock
    {
      && NoDuplicatePositions(s)
      && forall k :: 1 <= k < |s| ==> HullCell(s[k].gridPos) && exists j :: 0 <= j < k && EnteredFrom(s[j], s[k])
    }

    /** A blocked in-bounds cell next to a free one. */
    predicate HullCell(p: Vector2Int)
      requires Valid() && gridBlock != null
      reads this, gridBlock
    {
      InGrid(p) && Blocked(p) && OpenCount(p, 8) > 0
    }

    /** Makes the grid and blocks its border (every other cell is free). */
    method Start()
      requires Valid()
      modifies this
      ensures Valid() && gridBlock != null && fresh(gridBlock)
      ensures forall x, y :: 0 <= x < horizontalResolution && 0 <= y < verticalResolution ==>
        gridBlock[x, y] == OnBorder(x, y)
    {
      var grid := new bool[horizontalResolution, verticalResolution]((x, y) => false);
      for x := 0 to horizontalResolution
        invariant forall a, b :: 0 <= a < horizontalResolution && 0 <= b < verticalResolution ==>
          grid[a, b] == (a < x && (b == 0 || b == verticalResolution - 1))
      {
        grid[x, 0] := true;
        grid[x, verticalResolution - 1] := true;
      }
      for y := 0 to verticalResolution
        invariant forall a, b :: 0 <= a < horizontalResolution && 0 <= b < verticalResolution ==>
          grid[a, b] == (b == 0 || b == verticalResolution - 1 || (b < y && (a == 0 || a == horizontalResolution - 1)))
      {
        grid[0, y] := true;
        grid[horizontalResolution - 1, y] := true;
      }
      gridBlock := grid;
    }

    /** Re-probes every interior cell: blocked exactly where the probe hits
        something; the border is left as it is. */
    method RefreshGrid(probe: (int, int) -> bool)
      requires Valid() && gridBlock != null
      modifies gridBlock
      ensures forall x, y :: 0 < x < horizontalResolution - 1 && 0 < y < verticalResolution - 1 ==>
        gridBlock[x, y] == probe(x, y)
      ensures forall x, y :: 0 <= x < horizontalResolution && 0 <= y < verticalResolution && OnBorder(x, y) ==>
        gridBlock[x, y] == old(gridBlock[x, y])
    {
      var grid := gridBlock;
      var x := 1;
      while x < horizontalResolution - 1
        invariant 1 <= x && (x <= horizontalResolution - 1 || x == 1)
        invariant forall a, b :: 0 <= a < horizontalResolution && 0 <= b < verticalResolution ==>
          grid[a, b] == if 0 < a < x && 0 < b < verticalResolution - 1 then probe(a, b) else old(grid[a, b])
      {
        var y := 1;
        while y < verticalResolution - 1
          invariant 1 <= y && (y <= verticalResolution - 1 || y == 1)
          invariant forall a, b :: 0 <= a < horizontalResolution && 0 <= b < verticalResolution ==>
            grid[a, b] == if (0 < a < x || (a == x && b < y)) && 0 < b < verticalResolution - 1 then probe(a, b) else old(grid[a, b])
        {
          if probe(x, y) {
            grid[x, y] := true;
          } else {
            grid[x, y] := false;
          }
          y := y + 1;
        }
        x := x + 1;
      }
    }

    /** The number of in-bounds free cells among the eight around `gridPos`. */
    method GetUnblockedCellsCountAround(gridPos: Vector2Int) returns (count: int)
      requires Valid() && gridBlock != null
      ensures count == OpenCount(gridPos, 8)
      ensures 0 <= count <= 8
      ensures count > 0 <==> exists d: MoveDirection :: OpenNeighbour(gridPos, d)
    {
      count := 0;
      for i := 0 to 8
        invariant count == OpenCount(gridPos, i)
      {
        var newGridPos := Neighbour(gridPos, i);
        if newGridPos.x < 0 || newGridPos.x >= horizontalResolution || newGridPos.y < 0 || newGridPos.y >= verticalResolution {
          continue;
        }
        if !gridBlock[newGridPos.x, newGridPos.y] {
          count := count + 1;
        }
      }
      OpenCountRange(gridPos, 8);
    }

    /** One scan of the directions in order Left, LeftUp, ..., LeftDown from
        `curPoint`: the first direction that either returns to the start or
        is a candidate decides; if none does, nothing is found. */
    method ScanNeighbours(curPoint: HullPoint, start: Vector2Int, visited: set<Vector2Int>) returns (r: ScanResult)
      requires Valid() && gridBlock != null
      ensures r.Found? ==>
        && r.next.gridPos == Neighbour(curPoint.gridPos, r.next.moveDirection)
        && Candidate(curPoint, start, visited, r.next.moveDirection)
        && (forall d: MoveDirection :: d < r.next.moveDirection ==>
              !Candidate(curPoint, start, visited, d) && !BackToStart(curPoint, start, d))
      ensures r.Closed? ==>
        exists d: MoveDirection ::
          BackToStart(curPoint, start, d) && forall e: MoveDirection :: e < d ==> !Candidate(curPoint, start, visited, e)
      ensures r.NotFound? ==> forall d: MoveDirection ::
        !Candidate(curPoint, start, visited, d) && !BackToStart(curPoint, start, d)
    {
      r := NotFound;
      for i := 0 to 8
        invariant forall d: MoveDirection :: d < i ==>
          !Candidate(curPoint, start, visited, d) && !BackToStart(curPoint, start, d)
      {
        SkipIsOpposite(curPoint.moveDirection, i);
        if curPoint.moveDirection == i - 4 || curPoint.moveDirection == i + 4 {
          continue;
        }
        var newGridPos := Neighbour(curPoint.gridPos, i);
        if newGridPos == start {
          assert BackToStart(curPoint, start, i);
          return Closed;
        }
        if newGridPos.x < 0 || newGridPos.x >= horizontalResolution || newGridPos.y < 0 || newGridPos.y >= verticalResolution
           || !gridBlock[newGridPos.x, newGridPos.y] {
          continue;
        }
        var unblocked := GetUnblockedCellsCountAround(newGridPos);
        if unblocked > 0 {
          if newGridPos !in visited {
            return Found(HullPoint(newGridPos, i));
          }
        }
      }
    }

    /** Validates the seed, walks down its column to the first blocked cell
        (the start, entered Left), then traces: each round scans the current
        point's neighbours; a returning step ends the trace, a found cell is
        pushed and becomes current, and otherwise the walk backs up the
        stack, ending when the stack runs empty; at most H * V rounds. */
    method HullSearcher(mouseGridX: int, mouseGridY: int) returns (output: seq<HullPoint>, isValidInput: bool, ghost rounds: nat)
      requires Valid()
      ensures isValidInput <==>
        gridBlock != null && InGrid(Vector2Int(mouseGridX, mouseGridY)) && !gridBlock[mouseGridX, mouseGridY]
      ensures !isValidInput ==> output == []
      ensures isValidInput ==>
        && |output| >= 1
        && output[0].gridPos.x == mouseGridX && output[0].moveDirection == Left
        && 0 <= output[0].gridPos.y <= mouseGridY
        && (forall y :: output[0].gridPos.y < y <= mouseGridY ==> !gridBlock[mouseGridX, y])
        && (|| gridBlock[mouseGridX, output[0].gridPos.y]
            || (output[0].gridPos.y == mouseGridY && forall y :: 0 <= y <= mouseGridY ==> !gridBlock[mouseGridX, y]))
      ensures isValidInput && gridBlock[mouseGridX, 0] ==>
        output[0].gridPos.y < mouseGridY && gridBlock[mouseGridX, output[0].gridPos.y]
      ensures isValidInput ==> Traced(output)
      ensures rounds <= horizontalResolution * verticalResolution
    {
      rounds := 0;
      output := [];
      assert horizontalResolution * verticalResolution > 0;
      if gridBlock == null || mouseGridX < 0 || mouseGridX >= horizontalResolution || mouseGridY < 0 || mouseGridY >= verticalResolution
         || gridBlock[mouseGridX, mouseGridY] {
        isValidInput := false;
        return;
      }
      isValidInput := true;

      // Down the seed's column to the first blocked cell.
      var currentX, currentY := mouseGridX, mouseGridY;
      var y := currentY;
      while y >= 0
        invariant -1 <= y <= mouseGridY && currentY == mouseGridY
        invariant forall y' :: y < y' <= mouseGridY ==> !gridBlock[currentX, y']
      {
        if gridBlock[currentX, y] {
          currentY := y;
          break;
        }
        y := y - 1;
      }

      var startPoint := HullPoint(Vector2Int(currentX, currentY), Left);
      var currentHullPoints := [startPoint];
      var currentHullPointsStack := [startPoint];
      var currentHullPointsSet := {startPoint.gridPos};
      var curPoint := startPoint;
      var traversePointCount := 0;
      var cellCount := gridBlock.Length0 * gridBlock.Length1;
      while traversePointCount < cellCount
        invariant |currentHullPoints| >= 1 && currentHullPoints[0] == startPoint
        invariant currentHullPointsSet == Positions(currentHullPoints)
        invariant Traced(currentHullPoints)
        invariant |currentHullPointsStack| >= 1 && curPoint == currentHullPointsStack[|currentHullPointsStack| - 1]
        invariant forall e :: e in currentHullPointsStack ==> e in currentHullPoints
        invariant rounds <= traversePointCount && rounds <= cellCount
        decreases cellCount - traversePointCount
      {
        rounds := rounds + 1;
        var r := ScanNeighbours(curPoint, startPoint.gridPos, currentHullPointsSet);
        if r.Closed? {
          break;
        }
        if r.Found? {
          var temp := r.next;
          assert curPoint in currentHullPoints;
          var j :| 0 <= j < |currentHullPoints| && currentHullPoints[j] == curPoint;
          AppendTraced(currentHullPoints, j, temp);
          currentHullPoints := currentHullPoints + [temp];
          currentHullPointsStack := currentHullPointsStack + [temp];
          currentHullPointsSet := currentHullPointsSet + {temp.gridPos};
          curPoint := temp;
          traversePointCount := traversePointCount + 1;
        } else {
          currentHullPointsStack := currentHullPointsStack[..|currentHullPointsStack| - 1];
          if |currentHullPointsStack| == 0 {
            traversePointCount := traversePointCount + 1;
            break;
          }
          curPoint := currentHullPointsStack[|currentHullPointsStack| - 1];
        }
        traversePointCount := traversePointCount + 1;
      }
      output := currentHullPoints;
    }

    /** Appending a cell entered from point j by a non-reversing step keeps
        the list traced. */
    lemma AppendTraced(s: seq<HullPoint>, j: int, p: HullPoint)
      requires Valid() && gridBlock != null && Traced(s)
      requires 0 <= j < |s| && EnteredFrom(s[j], p) && HullCell(p.gridPos)
      requires p.gridPos !in Positions(s)
      ensures Traced(s + [p])
      ensures Positions(s + [p]) == Positions(s) + {p.gridPos}
    {
      var t := s + [p];
      forall k | 0 <= k < |s|
        ensures t[k].gridPos != p.gridPos
      {
        assert s[k].gridPos in Positions(s);
      }
      forall k | 1 <= k < |t|
        ensures HullCell(t[k].gridPos) && exists i :: 0 <= i < k && EnteredFrom(t[i], t[k])
      {
        if k < |s| {
          var i :| 0 <= i < k && EnteredFrom(s[i], s[k]);
          assert t[i] == s[i] && t[k] == s[k];
        } else {
          assert t[j] == s[j] && t[k] == p;
        }
      }
      PositionsSnoc(s, p);
    }
  }

  /** Appending a point adds its position to the positions. */
  lemma PositionsSnoc(s: seq<HullPoint>, p: HullPoint)
    ensures Positions(s + [p]) == Positions(s) + {p.gridPos}
  {
    var t := s + [p];
    forall x | x in Positions(t)
      ensures x in Positions(s) + {p.gridPos}
    {
      var k :| 0 <= k < |t| && t[k].gridPos == x;
      if k < |s| {
        assert s[k].gridPos == x;
      }
    }
    forall x | x in Positions(s)
      ensures x in Positions(t)
    {
      var k :| 0 <= k < |s| && s[k].gridPos == x;
      assert t[k].gridPos == x;
    }
    assert t[|s|].gridPos in Positions(t);
  }
}

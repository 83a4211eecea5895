// Day 15, part two: the map is first made twice as wide, so every box covers
// two cells, `[` and `]`. A box pushed sideways moves like part one's boxes;
// a box pushed up or down pushes whatever is in front of either half, so a
// single push can move a whole tree of boxes.
module Day15Wide {
  import opened Wrappers
  import opened Board
  import opened Warehouse
  import Day15

  datatype UpscaledToken = Wall | Empty | Robot | BoxLeft | BoxRight

  type Rows = seq<seq<UpscaledToken>>

  // ---------------------------------------------------------------------------
  // Upscaling.

  /** The two cells one cell of the narrow map becomes. */
  function UpscaleToken(t: Day15.Token): seq<UpscaledToken>
  {
    match t
    case Wall => [Wall, Wall]
    case Box => [BoxLeft, BoxRight]
    case Robot => [Robot, Empty]
    case Empty => [Empty, Empty]
  }

  /** `flat_map` over one row. */
  function UpscaleRow(row: seq<Day15.Token>): (r: seq<UpscaledToken>)
    ensures |r| == 2 * |row|
    ensures forall j :: 0 <= j < |row| ==> r[2 * j] == UpscaleToken(row[j])[0] && r[2 * j + 1] == UpscaleToken(row[j])[1]
  {
    if row == [] then []
    else
      var rest := UpscaleRow(row[1..]);
      assert forall j :: 1 <= j < |row| ==> row[1..][j - 1] == row[j];
      UpscaleToken(row[0]) + rest
  }

  /** `upscale_map`: every row twice as wide, every cell replaced by its pair. */
  function UpscaleMap(rows: seq<seq<Day15.Token>>): (r: Rows)
    ensures |r| == |rows|
    ensures forall i :: 0 <= i < |rows| ==> r[i] == UpscaleRow(rows[i])
  {
    seq(|rows|, i requires 0 <= i < |rows| => UpscaleRow(rows[i]))
  }

  /** Reading a wide map back: the left cell of each pair tells the token. */
  function DownscaleToken(t: UpscaledToken): Day15.Token
  {
    match t
    case Wall => Day15.Wall
    case BoxLeft => Day15.Box
    case Robot => Day15.Robot
    case _ => Day15.Empty
  }

  function DownscaleRow(row: seq<UpscaledToken>): (r: seq<Day15.Token>)
    ensures |r| == |row| / 2
  {
    seq(|row| / 2, j requires 0 <= j < |row| / 2 => DownscaleToken(row[2 * j]))
  }

  /** Upscaling loses nothing: reading the left halves back gives the map. */
  lemma DownscaleUpscale(rows: seq<seq<Day15.Token>>)
    ensures seq(|rows|, i requires 0 <= i < |rows| => DownscaleRow(UpscaleMap(rows)[i])) == rows
  {
    var up := UpscaleMap(rows);
    forall i | 0 <= i < |rows|
      ensures DownscaleRow(up[i]) == rows[i]
    {
      var row := rows[i];
      forall j | 0 <= j < |row|
        ensures DownscaleRow(up[i])[j] == row[j]
      {
        assert up[i][2 * j] == UpscaleToken(row[j])[0];
      }
    }
  }

  // ---------------------------------------------------------------------------
  // Box integrity.

  /** Cell `j` of the row is at most half of a whole box: a `[` has its `]`
      right after it and a `]` has its `[` right before it. */
  predicate CellOk(row: seq<UpscaledToken>, j: nat)
    requires j < |row|
  {
    (row[j] == BoxLeft ==> j + 1 < |row| && row[j + 1] == BoxRight) &&
    (row[j] == BoxRight ==> 0 < j && row[j - 1] == BoxLeft)
  }

  predicate RowIntegrity(row: seq<UpscaledToken>)
  {
    forall j :: 0 <= j < |row| ==> CellOk(row, j)
  }

  /** What `check_box_integrity` accepts. */
  predicate Integrity(rows: Rows)
  {
    forall i :: 0 <= i < |rows| ==> RowIntegrity(rows[i])
  }

  /** A half box on the map's edge: its partner's index is off the row. */
  predicate HalfAtEdge(row: seq<UpscaledToken>, j: nat)
    requires j < |row|
  {
    (row[j] == BoxLeft && j + 1 == |row|) || (row[j] == BoxRight && j == 0)
  }

  /** An upscaled map is always made of whole boxes. */
  lemma UpscaleIntegrity(rows: seq<seq<Day15.Token>>)
    ensures Integrity(UpscaleMap(rows))
  {
    forall i | 0 <= i < |rows|
      ensures RowIntegrity(UpscaleMap(rows)[i])
    {
      UpscaleRowIntegrity(rows[i]);
    }
  }

  lemma {:induction false} UpscaleRowIntegrity(row: seq<Day15.Token>)
    ensures RowIntegrity(UpscaleRow(row))
    ensures |row| > 0 ==> UpscaleRow(row)[0] != BoxRight
  {
    if row != [] {
      UpscaleRowIntegrity(row[1..]);
      var pair := UpscaleToken(row[0]);
      assert CellOk(pair, 0) && CellOk(pair, 1);
      RowConcat(pair, UpscaleRow(row[1..]));
    }
  }

  /** Two rows of whole boxes side by side, with no half box on the seam. */
  lemma RowConcat(a: seq<UpscaledToken>, b: seq<UpscaledToken>)
    requires RowIntegrity(a) && RowIntegrity(b)
    requires |a| > 0 ==> a[|a| - 1] != BoxLeft
    requires |b| > 0 ==> b[0] != BoxRight
    ensures RowIntegrity(a + b)
  {
    forall k | 0 <= k < |a + b|
      ensures CellOk(a + b, k)
    {
      if k < |a| {
        assert CellOk(a, k);
      } else {
        assert CellOk(b, k - |a|);
      }
    }
  }

  /** An enclosed map stays enclosed when upscaled. */
  lemma UpscaleEnclosed(rows: seq<seq<Day15.Token>>)
    requires Enclosed(rows, Day15.Wall)
    ensures Enclosed(UpscaleMap(rows), Wall)
  {
    var up := UpscaleMap(rows);
    var w := |rows[0]|;
    forall i, k | 0 <= i < |up| && 0 <= k < |up[i]| && (i == 0 || i == |up| - 1 || k == 0 || k == |up[0]| - 1)
      ensures up[i][k] == Wall
    {
      var j := k / 2;
      assert k == 2 * j || k == 2 * j + 1;
      assert up[i][2 * j] == UpscaleToken(rows[i][j])[0];
      assert k == |up[0]| - 1 ==> j == w - 1;
    }
  }

  /** `check_box_integrity`. `None` is an index off the row (a panic): a `[`
      in the last column or a `]` in the first. */
  method CheckBoxIntegrity(board: Board<UpscaledToken>) returns (r: Option<bool>)
    ensures r == Some(true) <==> Integrity(board.rows)
    ensures r.None? ==> exists i, j :: 0 <= i < |board.rows| && 0 <= j < |board.rows[i]| && HalfAtEdge(board.rows[i], j)
  {
    var i := 0;
    while i < |board.rows|
      invariant 0 <= i <= |board.rows|
      invariant forall a :: 0 <= a < i ==> RowIntegrity(board.rows[a])
    {
      var row := board.rows[i];
      var j := 0;
      while j < |row|
        invariant 0 <= j <= |row|
        invariant forall b :: 0 <= b < j ==> CellOk(row, b)
      {
        if row[j] == BoxLeft {
          if j + 1 >= |row| {
            assert HalfAtEdge(board.rows[i], j) && !CellOk(board.rows[i], j);
            return None;
          }
          if row[j + 1] != BoxRight {
            assert !CellOk(board.rows[i], j);
            return Some(false);
          }
        } else if row[j] == BoxRight {
          if j == 0 {
            assert HalfAtEdge(board.rows[i], j) && !CellOk(board.rows[i], j);
            return None;
          }
          if row[j - 1] != BoxLeft {
            assert !CellOk(board.rows[i], j);
            return Some(false);
          }
        }
        j := j + 1;
      }
      i := i + 1;
    }
    return Some(true);
  }

  // ---------------------------------------------------------------------------
  // Moving one object.

  /** How far the box whose left half is at `p` is from the edge in
      direction `d`, measured from the half that leads. */
  function BoxDistance(rows: Rows, p: Point2, d: Direction): nat
  {
    if d == Right then Distance(rows, Point2(p.row, p.col + 1), d) else Distance(rows, p, d)
  }

  /** The four writes that take the box at `p` off the map and put it at `q`. */
  function Replace(rows: Rows, p: Point2, q: Point2): (r: Rows)
    requires In(rows, p) && In(rows, Point2(p.row, p.col + 1))
    requires In(rows, q) && In(rows, Point2(q.row, q.col + 1))
    ensures SameShape(r, rows)
  {
    var cleared := Put(Put(rows, p, Empty), Point2(p.row, p.col + 1), Empty);
    Put(Put(cleared, q, BoxLeft), Point2(q.row, q.col + 1), BoxRight)
  }

  /** The three writes that move the box at `p` one cell to the right. */
  function ShiftRight(rows: Rows, p: Point2): (r: Rows)
    requires In(rows, p) && In(rows, Point2(p.row, p.col + 2))
    ensures SameShape(r, rows)
  {
    Put(Put(Put(rows, p, Empty), Point2(p.row, p.col + 2), BoxRight), Point2(p.row, p.col + 1), BoxLeft)
  }

  /** `move_object` for the wide map. With `atomic` false this is the source
      as written; with `atomic` true a vertical box push whose right half is
      blocked undoes what its left half already moved (see `MoveBox`). */
  function MoveWide(rows: Rows, p: Point2, d: Direction, atomic: bool): (o: Outcome<UpscaledToken>)
    ensures SameShape(o.rows, rows)
    ensures o.push != Panic ==> In(rows, p)
    decreases 2 * Distance(rows, p, d) + 1, 0
  {
    if !In(rows, p) then Outcome(rows, Panic)
    else
      var current := rows[p.row][p.col];
      if current == Wall then Outcome(rows, Stuck)
      else
        match CellInDirection(p, d)
        case None => Outcome(rows, Panic)
        case Some(newPos) =>
          if current == Empty then Outcome(rows, Moved(p))
          else if current == Robot then
            var inner := MoveWide(rows, newPos, d, atomic);
            if inner.push.Moved? then Outcome(Put(Put(inner.rows, newPos, Robot), p, Empty), Moved(newPos))
            else inner
          else if current == BoxLeft then MoveBox(rows, p, d, atomic)
          else if p.col == 0 || rows[p.row][p.col - 1] != BoxLeft then Outcome(rows, Panic)
          else
            var inner := MoveBox(rows, Point2(p.row, p.col - 1), d, atomic);
            if inner.push.Moved? then Outcome(inner.rows, Moved(newPos)) else inner
  }

  /** The `BoxLeft` arm of `move_object`, for the box whose left half is at
      `p`; the `BoxRight` arm hands its box to it as well. Sideways, the box
      pushes what is in front of its leading half; up or down, `LiftBox`. */
  function MoveBox(rows: Rows, p: Point2, d: Direction, atomic: bool): (o: Outcome<UpscaledToken>)
    requires In(rows, p)
    ensures SameShape(o.rows, rows)
    decreases 2 * BoxDistance(rows, p, d), 2
  {
    match CellInDirection(p, d)
    case None => Outcome(rows, Panic)
    case Some(newPos) =>
      var rightPos := Point2(p.row, p.col + 1);
      if !In(rows, rightPos) || rows[p.row][p.col + 1] != BoxRight then Outcome(rows, Panic)
      else if newPos == rightPos then PushRight(rows, p, atomic)
      else if d == Left then PushLeft(rows, p, atomic)
      else LiftBox(rows, p, newPos, d, atomic)
  }

  /** A box pushed right: what is in front of its right half moves first. */
  function PushRight(rows: Rows, p: Point2, atomic: bool): (o: Outcome<UpscaledToken>)
    requires In(rows, p) && In(rows, Point2(p.row, p.col + 1))
    ensures SameShape(o.rows, rows)
    decreases 2 * BoxDistance(rows, p, Right), 0
  {
    var inner := MoveWide(rows, Point2(p.row, p.col + 2), Right, atomic);
    if inner.push.Moved? then Outcome(ShiftRight(inner.rows, p), Moved(Point2(p.row, p.col + 1)))
    else inner
  }

  /** A box pushed left: what is in front of its left half moves first. */
  function PushLeft(rows: Rows, p: Point2, atomic: bool): (o: Outcome<UpscaledToken>)
    requires In(rows, p) && In(rows, Point2(p.row, p.col + 1)) && p.col > 0
    ensures SameShape(o.rows, rows)
    decreases 2 * BoxDistance(rows, p, Left), 0
  {
    var newPos := Point2(p.row, p.col - 1);
    var inner := MoveWide(rows, newPos, Left, atomic);
    if inner.push.Moved? then Outcome(Replace(inner.rows, p, newPos), Moved(newPos)) else inner
  }

  /** A box pushed up or down: first what is in front of its left half, then
      what is in front of its right half. As written (`atomic` false), when
      the first push succeeds and the second is blocked the first is not
      undone; with `atomic` the map is restored. */
  function LiftBox(rows: Rows, p: Point2, newPos: Point2, d: Direction, atomic: bool): (o: Outcome<UpscaledToken>)
    requires In(rows, p) && In(rows, Point2(p.row, p.col + 1))
    requires d == Up || d == Down
    requires CellInDirection(p, d) == Some(newPos)
    ensures SameShape(o.rows, rows)
    decreases 2 * BoxDistance(rows, p, d), 1
  {
    var first := MoveWide(rows, newPos, d, atomic);
    if !first.push.Moved? then first else LiftRest(rows, first.rows, p, newPos, d, atomic)
  }

  /** The second half of `LiftBox`, once the push in front of `[` has turned
      `rows` into `mid`. */
  function LiftRest(rows: Rows, mid: Rows, p: Point2, newPos: Point2, d: Direction, atomic: bool): (o: Outcome<UpscaledToken>)
    requires In(rows, p) && In(rows, Point2(p.row, p.col + 1)) && SameShape(mid, rows)
    requires d == Up || d == Down
    requires CellInDirection(p, d) == Some(newPos)
    ensures SameShape(o.rows, rows)
    decreases 2 * BoxDistance(rows, p, d), 0
  {
    var second := MoveWide(mid, Point2(newPos.row, newPos.col + 1), d, atomic);
    if second.push.Moved? then Outcome(Replace(second.rows, p, newPos), Moved(newPos))
    else if atomic && second.push == Stuck then Outcome(rows, Stuck)
    else second
  }

  // ---------------------------------------------------------------------------
  // What a move may change.

  /** Cell `c` lies beyond `p` in direction `d`: any cell of a row above (or
      below) `p`'s, or a cell of `p`'s row to its left (or right). */
  predicate StrictlyAhead(c: Point2, p: Point2, d: Direction)
  {
    match d
    case Up => c.row < p.row
    case Down => c.row > p.row
    case Left => c.row == p.row && c.col < p.col
    case Right => c.row == p.row && c.col > p.col
  }

  /** `c` is the other half of the box half at `q`. */
  predicate Partner(rows: Rows, q: Point2, c: Point2)
    requires In(rows, q)
  {
    (rows[q.row][q.col] == BoxLeft && c == Point2(q.row, q.col + 1)) ||
    (rows[q.row][q.col] == BoxRight && q.col > 0 && c == Point2(q.row, q.col - 1))
  }

  /** The cells a push of the object at `q` along `d` may write. */
  predicate Reach(rows: Rows, q: Point2, d: Direction, c: Point2)
    requires In(rows, q)
  {
    StrictlyAhead(c, q, d) || c == q || Partner(rows, q, c)
  }

  /** The cells a push of the box whose left half is at `p` may write. */
  predicate BoxReach(p: Point2, d: Direction, c: Point2)
  {
    StrictlyAhead(c, p, d) || c == p || c == Point2(p.row, p.col + 1)
  }

  /** Outside the reach of a push from `q`, map `a` agrees with `rows`. */
  predicate WideFrame(a: Rows, rows: Rows, q: Point2, d: Direction)
    requires SameShape(a, rows) && In(rows, q)
  {
    forall i, j :: 0 <= i < |rows| && 0 <= j < |rows[i]| && !Reach(rows, q, d, Point2(i, j)) ==> a[i][j] == rows[i][j]
  }

  predicate BoxFrame(a: Rows, rows: Rows, p: Point2, d: Direction)
    requires SameShape(a, rows)
  {
    forall i, j :: 0 <= i < |rows| && 0 <= j < |rows[i]| && !BoxReach(p, d, Point2(i, j)) ==> a[i][j] == rows[i][j]
  }

  /** With the atomic push, a blocked push leaves the map as it was. */
  lemma {:induction false} WideStuck(rows: Rows, p: Point2, d: Direction)
    ensures MoveWide(rows, p, d, true).push == Stuck ==> MoveWide(rows, p, d, true).rows == rows
    decreases 2 * Distance(rows, p, d) + 1, 0
  {
    if In(rows, p) && rows[p.row][p.col] != Wall && CellInDirection(p, d).Some? {
      var current := rows[p.row][p.col];
      if current == Robot {
        WideStuck(rows, CellInDirection(p, d).value, d);
      } else if current == BoxLeft {
        BoxStuck(rows, p, d);
      } else if current == BoxRight && p.col > 0 && rows[p.row][p.col - 1] == BoxLeft {
        BoxStuck(rows, Point2(p.row, p.col - 1), d);
      }
    }
  }

  lemma {:induction false} BoxStuck(rows: Rows, p: Point2, d: Direction)
    requires In(rows, p)
    ensures MoveBox(rows, p, d, true).push == Stuck ==> MoveBox(rows, p, d, true).rows == rows
    decreases 2 * BoxDistance(rows, p, d), 1
  {
    if CellInDirection(p, d).Some? && In(rows, Point2(p.row, p.col + 1)) {
      var newPos := CellInDirection(p, d).value;
      if newPos == Point2(p.row, p.col + 1) {
        WideStuck(rows, Point2(p.row, p.col + 2), Right);
      } else {
        WideStuck(rows, newPos, d);
        if d != Left && rows[p.row][p.col + 1] == BoxRight {
          var first := MoveWide(rows, newPos, d, true);
          assert MoveBox(rows, p, d, true) == LiftBox(rows, p, newPos, d, true);
          if first.push.Moved? {
            assert LiftBox(rows, p, newPos, d, true) == LiftRest(rows, first.rows, p, newPos, d, true);
          }
        }
      }
    }
  }

  /** Writing a non-wall token over a cell that is not a wall in `b` keeps
      the walls of `b`. */
  lemma PutNonWall(a: Rows, b: Rows, p: Point2, x: UpscaledToken)
    requires SameWalls(a, b, Wall) && In(b, p) && b[p.row][p.col] != Wall && x != Wall
    ensures SameWalls(Put(a, p, x), b, Wall)
  {
  }

  lemma ReplaceWalls(a: Rows, b: Rows, p: Point2, q: Point2)
    requires SameWalls(a, b, Wall)
    requires In(b, p) && In(b, Point2(p.row, p.col + 1)) && In(b, q) && In(b, Point2(q.row, q.col + 1))
    requires b[p.row][p.col] != Wall && b[p.row][p.col + 1] != Wall && b[q.row][q.col] != Wall && b[q.row][q.col + 1] != Wall
    ensures SameWalls(Replace(a, p, q), b, Wall)
  {
    PairWalls(a, b, p, Empty, Empty);
    var cleared := Put(Put(a, p, Empty), Point2(p.row, p.col + 1), Empty);
    PairWalls(cleared, b, q, BoxLeft, BoxRight);
    assert Replace(a, p, q) == Put(Put(cleared, q, BoxLeft), Point2(q.row, q.col + 1), BoxRight);
  }

  /** Two non-wall writes side by side over cells that are not walls in `b`. */
  lemma PairWalls(a: Rows, b: Rows, p: Point2, x: UpscaledToken, y: UpscaledToken)
    requires SameWalls(a, b, Wall) && In(b, p) && In(b, Point2(p.row, p.col + 1))
    requires b[p.row][p.col] != Wall && b[p.row][p.col + 1] != Wall && x != Wall && y != Wall
    ensures SameWalls(Put(Put(a, p, x), Point2(p.row, p.col + 1), y), b, Wall)
  {
    PutNonWall(a, b, p, x);
    PutNonWall(Put(a, p, x), b, Point2(p.row, p.col + 1), y);
  }

  lemma ShiftRightWalls(a: Rows, b: Rows, p: Point2)
    requires SameWalls(a, b, Wall) && In(b, p) && In(b, Point2(p.row, p.col + 2))
    requires b[p.row][p.col] != Wall && b[p.row][p.col + 1] != Wall && b[p.row][p.col + 2] != Wall
    ensures SameWalls(ShiftRight(a, p), b, Wall)
  {
    var a1 := Put(a, p, Empty);
    PutNonWall(a, b, p, Empty);
    PutNonWall(a1, b, Point2(p.row, p.col + 2), BoxRight);
    PutNonWall(Put(a1, Point2(p.row, p.col + 2), BoxRight), b, Point2(p.row, p.col + 1), BoxLeft);
  }

  /** Walls never move, with either kind of push; an object that moved was
      not a wall. */
  lemma {:induction false} WideWalls(rows: Rows, p: Point2, d: Direction, atomic: bool)
    ensures SameWalls(MoveWide(rows, p, d, atomic).rows, rows, Wall)
    ensures MoveWide(rows, p, d, atomic).push.Moved? ==> rows[p.row][p.col] != Wall
    decreases 2 * Distance(rows, p, d) + 1, 1
  {
    var o := MoveWide(rows, p, d, atomic);
    if In(rows, p) && rows[p.row][p.col] != Wall && CellInDirection(p, d).Some? {
      var current := rows[p.row][p.col];
      var newPos := CellInDirection(p, d).value;
      if current == Robot {
        RobotWalls(rows, p, d, atomic);
      } else if current == BoxLeft {
        BoxWalls(rows, p, d, atomic);
        assert o == MoveBox(rows, p, d, atomic);
      } else if current == BoxRight && p.col > 0 && rows[p.row][p.col - 1] == BoxLeft {
        BoxWalls(rows, Point2(p.row, p.col - 1), d, atomic);
        assert o.rows == MoveBox(rows, Point2(p.row, p.col - 1), d, atomic).rows;
      } else {
        assert o.rows == rows;
      }
    } else {
      assert o.rows == rows;
    }
  }

  /** `WideWalls` for the robot. */
  lemma {:induction false} RobotWalls(rows: Rows, p: Point2, d: Direction, atomic: bool)
    requires In(rows, p) && rows[p.row][p.col] == Robot && CellInDirection(p, d).Some?
    ensures SameWalls(MoveWide(rows, p, d, atomic).rows, rows, Wall)
    decreases 2 * Distance(rows, p, d) + 1, 0
  {
    var o := MoveWide(rows, p, d, atomic);
    var newPos := CellInDirection(p, d).value;
    WideWalls(rows, newPos, d, atomic);
    var inner := MoveWide(rows, newPos, d, atomic);
    if inner.push.Moved? {
      PairNonWall(inner.rows, rows, newPos, p);
      assert o.rows == Put(Put(inner.rows, newPos, Robot), p, Empty);
    } else {
      assert o == inner;
    }
  }

  /** The robot's two writes keep the walls. */
  lemma PairNonWall(a: Rows, b: Rows, q: Point2, p: Point2)
    requires SameWalls(a, b, Wall) && In(b, q) && In(b, p)
    requires b[q.row][q.col] != Wall && b[p.row][p.col] != Wall
    ensures SameWalls(Put(Put(a, q, Robot), p, Empty), b, Wall)
  {
    PutNonWall(a, b, q, Robot);
    PutNonWall(Put(a, q, Robot), b, p, Empty);
  }

  lemma {:induction false} BoxWalls(rows: Rows, p: Point2, d: Direction, atomic: bool)
    requires In(rows, p) && rows[p.row][p.col] == BoxLeft
    ensures SameWalls(MoveBox(rows, p, d, atomic).rows, rows, Wall)
    decreases 2 * BoxDistance(rows, p, d), 2
  {
    var rightPos := Point2(p.row, p.col + 1);
    if CellInDirection(p, d).Some? && In(rows, rightPos) && rows[p.row][p.col + 1] == BoxRight {
      var newPos := CellInDirection(p, d).value;
      if newPos == rightPos {
        PushRightWalls(rows, p, atomic);
      } else if d == Left {
        PushLeftWalls(rows, p, atomic);
      } else {
        LiftWalls(rows, p, newPos, d, atomic);
      }
    }
  }

  lemma {:induction false} PushRightWalls(rows: Rows, p: Point2, atomic: bool)
    requires In(rows, p) && In(rows, Point2(p.row, p.col + 1))
    requires rows[p.row][p.col] == BoxLeft && rows[p.row][p.col + 1] == BoxRight
    ensures SameWalls(PushRight(rows, p, atomic).rows, rows, Wall)
    decreases 2 * BoxDistance(rows, p, Right), 0
  {
    WideWalls(rows, Point2(p.row, p.col + 2), Right, atomic);
    var inner := MoveWide(rows, Point2(p.row, p.col + 2), Right, atomic);
    if inner.push.Moved? {
      ShiftRightWalls(inner.rows, rows, p);
    }
  }

  lemma {:induction false} PushLeftWalls(rows: Rows, p: Point2, atomic: bool)
    requires In(rows, p) && In(rows, Point2(p.row, p.col + 1)) && p.col > 0
    requires rows[p.row][p.col] == BoxLeft && rows[p.row][p.col + 1] == BoxRight
    ensures SameWalls(PushLeft(rows, p, atomic).rows, rows, Wall)
    decreases 2 * BoxDistance(rows, p, Left), 0
  {
    WideWalls(rows, Point2(p.row, p.col - 1), Left, atomic);
    var inner := MoveWide(rows, Point2(p.row, p.col - 1), Left, atomic);
    if inner.push.Moved? {
      ReplaceWalls(inner.rows, rows, p, Point2(p.row, p.col - 1));
    }
  }

  lemma {:induction false} LiftWalls(rows: Rows, p: Point2, newPos: Point2, d: Direction, atomic: bool)
    requires In(rows, p) && In(rows, Point2(p.row, p.col + 1))
    requires rows[p.row][p.col] == BoxLeft && rows[p.row][p.col + 1] == BoxRight
    requires d == Up || d == Down
    requires CellInDirection(p, d) == Some(newPos)
    ensures SameWalls(LiftBox(rows, p, newPos, d, atomic).rows, rows, Wall)
    decreases 2 * BoxDistance(rows, p, d), 1
  {
    var o := LiftBox(rows, p, newPos, d, atomic);
    WideWalls(rows, newPos, d, atomic);
    var first := MoveWide(rows, newPos, d, atomic);
    if first.push.Moved? {
      LiftRestWalls(rows, first.rows, p, newPos, d, atomic);
      assert o == LiftRest(rows, first.rows, p, newPos, d, atomic);
    } else {
      assert o == first;
    }
  }

  lemma {:induction false} LiftRestWalls(rows: Rows, mid: Rows, p: Point2, newPos: Point2, d: Direction, atomic: bool)
    requires In(rows, p) && In(rows, Point2(p.row, p.col + 1)) && SameShape(mid, rows)
    requires rows[p.row][p.col] == BoxLeft && rows[p.row][p.col + 1] == BoxRight
    requires d == Up || d == Down
    requires CellInDirection(p, d) == Some(newPos)
    requires SameWalls(mid, rows, Wall) && In(rows, newPos) && rows[newPos.row][newPos.col] != Wall
    ensures SameWalls(LiftRest(rows, mid, p, newPos, d, atomic).rows, rows, Wall)
    decreases 2 * BoxDistance(rows, p, d), 0
  {
    var newRightPos := Point2(newPos.row, newPos.col + 1);
    var o := LiftRest(rows, mid, p, newPos, d, atomic);
    WideWalls(mid, newRightPos, d, atomic);
    var second := MoveWide(mid, newRightPos, d, atomic);
    SameWallsTrans(second.rows, mid, rows, Wall);
    if second.push.Moved? {
      ReplaceWalls(second.rows, rows, p, newPos);
      assert o.rows == Replace(second.rows, p, newPos);
    } else {
      assert o.rows == second.rows || o.rows == rows;
    }
  }

  // ---------------------------------------------------------------------------
  // Writes that keep every box whole.

  predicate Plain(t: UpscaledToken)
  {
    t != BoxLeft && t != BoxRight
  }

  lemma RowPutPlain(row: seq<UpscaledToken>, c: nat, x: UpscaledToken)
    requires RowIntegrity(row) && c < |row| && Plain(row[c]) && Plain(x)
    ensures RowIntegrity(row[c := x])
  {
    var r := row[c := x];
    forall j | 0 <= j < |r|
      ensures CellOk(r, j)
    {
      assert CellOk(row, j);
    }
  }

  /** A wall, robot or empty cell overwritten by another one. */
  lemma PutPlain(a: Rows, c: Point2, x: UpscaledToken)
    requires Integrity(a) && In(a, c) && Plain(a[c.row][c.col]) && Plain(x)
    ensures Integrity(Put(a, c, x))
  {
    RowPutPlain(a[c.row], c.col, x);
  }

  lemma RowShiftRight(row: seq<UpscaledToken>, j: nat)
    requires RowIntegrity(row) && j + 2 < |row|
    requires row[j] == BoxLeft && row[j + 1] == BoxRight && row[j + 2] == Empty
    ensures RowIntegrity(row[j := Empty][j + 2 := BoxRight][j + 1 := BoxLeft])
  {
    var r := row[j := Empty][j + 2 := BoxRight][j + 1 := BoxLeft];
    forall k | 0 <= k < |r|
      ensures CellOk(r, k)
    {
      assert CellOk(row, k);
    }
  }

  lemma ShiftRightIntegrity(a: Rows, p: Point2)
    requires Integrity(a) && In(a, p) && In(a, Point2(p.row, p.col + 2))
    requires a[p.row][p.col] == BoxLeft && a[p.row][p.col + 1] == BoxRight && a[p.row][p.col + 2] == Empty
    ensures Integrity(ShiftRight(a, p))
  {
    RowShiftRight(a[p.row], p.col);
    assert ShiftRight(a, p)[p.row] == a[p.row][p.col := Empty][p.col + 2 := BoxRight][p.col + 1 := BoxLeft];
  }

  lemma RowShiftLeft(row: seq<UpscaledToken>, j: nat)
    requires RowIntegrity(row) && 0 < j && j + 1 < |row|
    requires row[j - 1] == Empty && row[j] == BoxLeft && row[j + 1] == BoxRight
    ensures RowIntegrity(row[j := Empty][j + 1 := Empty][j - 1 := BoxLeft][j := BoxRight])
  {
    var r := row[j := Empty][j + 1 := Empty][j - 1 := BoxLeft][j := BoxRight];
    forall k | 0 <= k < |r|
      ensures CellOk(r, k)
    {
      assert CellOk(row, k);
    }
  }

  lemma ShiftLeftIntegrity(a: Rows, p: Point2)
    requires Integrity(a) && In(a, Point2(p.row, p.col + 1)) && p.col > 0
    requires a[p.row][p.col - 1] == Empty && a[p.row][p.col] == BoxLeft && a[p.row][p.col + 1] == BoxRight
    ensures Integrity(Replace(a, p, Point2(p.row, p.col - 1)))
  {
    RowShiftLeft(a[p.row], p.col);
    assert Replace(a, p, Point2(p.row, p.col - 1))[p.row] ==
      a[p.row][p.col := Empty][p.col + 1 := Empty][p.col - 1 := BoxLeft][p.col := BoxRight];
  }

  lemma RowClear(row: seq<UpscaledToken>, j: nat)
    requires RowIntegrity(row) && j + 1 < |row| && row[j] == BoxLeft && row[j + 1] == BoxRight
    ensures RowIntegrity(row[j := Empty][j + 1 := Empty])
  {
    var r := row[j := Empty][j + 1 := Empty];
    forall k | 0 <= k < |r|
      ensures CellOk(r, k)
    {
      assert CellOk(row, k);
    }
  }

  lemma RowPlace(row: seq<UpscaledToken>, j: nat)
    requires RowIntegrity(row) && j + 1 < |row| && row[j] == Empty && row[j + 1] == Empty
    ensures RowIntegrity(row[j := BoxLeft][j + 1 := BoxRight])
  {
    var r := row[j := BoxLeft][j + 1 := BoxRight];
    forall k | 0 <= k < |r|
      ensures CellOk(r, k)
    {
      assert CellOk(row, k);
    }
  }

  /** A box taken off one row and put on two empty cells of another. */
  lemma LiftIntegrity(a: Rows, p: Point2, q: Point2)
    requires Integrity(a) && In(a, Point2(p.row, p.col + 1)) && In(a, Point2(q.row, q.col + 1)) && p.row != q.row
    requires a[p.row][p.col] == BoxLeft && a[p.row][p.col + 1] == BoxRight
    requires a[q.row][q.col] == Empty && a[q.row][q.col + 1] == Empty
    ensures Integrity(Replace(a, p, q))
  {
    RowClear(a[p.row], p.col);
    RowPlace(a[q.row], q.col);
    var r := Replace(a, p, q);
    assert r[p.row] == a[p.row][p.col := Empty][p.col + 1 := Empty];
    assert r[q.row] == a[q.row][q.col := BoxLeft][q.col + 1 := BoxRight];
  }

  // ---------------------------------------------------------------------------
  // An atomic push keeps every box whole.

  /** The cell at `q` is taken over by the other half of its own box: a `]`
      pushed right or a `[` pushed left. */
  predicate Refilled(rows: Rows, q: Point2, d: Direction)
    requires In(rows, q)
  {
    (rows[q.row][q.col] == BoxRight && d == Right) || (rows[q.row][q.col] == BoxLeft && d == Left)
  }

  /** A successful atomic push on a map of whole boxes leaves a map of whole
      boxes, changes nothing outside its reach and empties the start cell
      unless the start cell's own box moves onto it. */
  lemma {:induction false} WideFacts(rows: Rows, q: Point2, d: Direction)
    requires Integrity(rows)
    ensures var o := MoveWide(rows, q, d, true);
      o.push.Moved? ==>
        Integrity(o.rows) && WideFrame(o.rows, rows, q, d) &&
        (!Refilled(rows, q, d) ==> o.rows[q.row][q.col] == Empty)
    decreases 2 * Distance(rows, q, d) + 1, 1
  {
    var o := MoveWide(rows, q, d, true);
    if In(rows, q) && rows[q.row][q.col] != Wall && CellInDirection(q, d).Some? {
      var current := rows[q.row][q.col];
      if current == Robot {
        RobotFacts(rows, q, d);
      } else if current == BoxLeft {
        BoxFacts(rows, q, d);
        assert o == MoveBox(rows, q, d, true);
        if o.push.Moved? {
          BoxFrameLeftHalf(o.rows, rows, q, d);
        }
      } else if current == BoxRight && q.col > 0 && rows[q.row][q.col - 1] == BoxLeft {
        var p := Point2(q.row, q.col - 1);
        BoxFacts(rows, p, d);
        assert o.rows == MoveBox(rows, p, d, true).rows;
        assert o.push.Moved? ==> MoveBox(rows, p, d, true).push.Moved?;
        if o.push.Moved? {
          BoxFrameRightHalf(o.rows, rows, q, d);
        }
      } else if current == Empty {
        assert o.rows == rows;
      } else {
        assert o.push == Panic;
      }
    } else {
      assert !o.push.Moved?;
    }
  }

  lemma BoxFrameLeftHalf(a: Rows, rows: Rows, q: Point2, d: Direction)
    requires SameShape(a, rows) && In(rows, q) && rows[q.row][q.col] == BoxLeft
    requires BoxFrame(a, rows, q, d)
    ensures WideFrame(a, rows, q, d)
  {
  }

  lemma BoxFrameRightHalf(a: Rows, rows: Rows, q: Point2, d: Direction)
    requires SameShape(a, rows) && In(rows, q) && rows[q.row][q.col] == BoxRight && q.col > 0
    requires BoxFrame(a, rows, Point2(q.row, q.col - 1), d)
    ensures WideFrame(a, rows, q, d)
  {
    forall i, j | 0 <= i < |rows| && 0 <= j < |rows[i]| && !Reach(rows, q, d, Point2(i, j))
      ensures a[i][j] == rows[i][j]
    {
      assert !BoxReach(Point2(q.row, q.col - 1), d, Point2(i, j));
    }
  }

  /** `WideFacts` for the robot. */
  lemma {:induction false} RobotFacts(rows: Rows, q: Point2, d: Direction)
    requires Integrity(rows) && In(rows, q) && rows[q.row][q.col] == Robot && CellInDirection(q, d).Some?
    ensures var o := MoveWide(rows, q, d, true);
      o.push.Moved? ==> Integrity(o.rows) && WideFrame(o.rows, rows, q, d) && o.rows[q.row][q.col] == Empty
    decreases 2 * Distance(rows, q, d) + 1, 0
  {
    var newPos := CellInDirection(q, d).value;
    WideFacts(rows, newPos, d);
    var inner := MoveWide(rows, newPos, d, true);
    if inner.push.Moved? {
      assert CellOk(rows[newPos.row], newPos.col);
      assert !Refilled(rows, newPos, d);
      RobotStep(rows, q, d, newPos, inner.rows);
    }
  }

  /** The bookkeeping of `RobotFacts` once the cell in front has moved. */
  lemma RobotStep(rows: Rows, q: Point2, d: Direction, newPos: Point2, inner: Rows)
    requires Integrity(rows) && In(rows, q) && rows[q.row][q.col] == Robot && CellInDirection(q, d) == Some(newPos)
    requires In(rows, newPos) && SameShape(inner, rows) && !Refilled(rows, newPos, d)
    requires Integrity(inner) && WideFrame(inner, rows, newPos, d) && inner[newPos.row][newPos.col] == Empty
    ensures var o := Put(Put(inner, newPos, Robot), q, Empty);
      Integrity(o) && WideFrame(o, rows, q, d) && o[q.row][q.col] == Empty
  {
    assert !Reach(rows, newPos, d, q);
    var mid := Put(inner, newPos, Robot);
    PutPlain(inner, newPos, Robot);
    PutPlain(mid, q, Empty);
    var o := Put(mid, q, Empty);
    forall i, j | 0 <= i < |rows| && 0 <= j < |rows[i]| && !Reach(rows, q, d, Point2(i, j))
      ensures o[i][j] == rows[i][j]
    {
      assert !Reach(rows, newPos, d, Point2(i, j));
    }
  }

  lemma {:induction false} BoxFacts(rows: Rows, p: Point2, d: Direction)
    requires Integrity(rows) && In(rows, p) && rows[p.row][p.col] == BoxLeft
    ensures var o := MoveBox(rows, p, d, true);
      o.push.Moved? ==>
        Integrity(o.rows) && BoxFrame(o.rows, rows, p, d) &&
        (d != Left ==> o.rows[p.row][p.col] == Empty) &&
        (d != Right ==> o.rows[p.row][p.col + 1] == Empty)
    decreases 2 * BoxDistance(rows, p, d), 2
  {
    assert CellOk(rows[p.row], p.col);
    var rightPos := Point2(p.row, p.col + 1);
    if CellInDirection(p, d).Some? {
      var newPos := CellInDirection(p, d).value;
      if newPos == rightPos {
        PushRightFacts(rows, p);
      } else if d == Left {
        PushLeftFacts(rows, p);
      } else {
        LiftFacts(rows, p, newPos, d);
      }
    }
  }

  lemma {:induction false} PushRightFacts(rows: Rows, p: Point2)
    requires Integrity(rows) && In(rows, Point2(p.row, p.col + 1))
    requires rows[p.row][p.col] == BoxLeft && rows[p.row][p.col + 1] == BoxRight
    ensures var o := PushRight(rows, p, true);
      o.push.Moved? ==> Integrity(o.rows) && BoxFrame(o.rows, rows, p, Right) && o.rows[p.row][p.col] == Empty
    decreases 2 * BoxDistance(rows, p, Right), 1
  {
    var q := Point2(p.row, p.col + 2);
    var o := PushRight(rows, p, true);
    WideFacts(rows, q, Right);
    var inner := MoveWide(rows, q, Right, true);
    if inner.push.Moved? {
      assert CellOk(rows[q.row], q.col);
      PushRightStep(rows, p, inner.rows);
      assert o.rows == ShiftRight(inner.rows, p);
    } else {
      assert o == inner;
    }
  }

  /** The bookkeeping of `PushRightFacts` once the cell in front has moved. */
  lemma PushRightStep(rows: Rows, p: Point2, inner: Rows)
    requires Integrity(rows) && In(rows, Point2(p.row, p.col + 2)) && SameShape(inner, rows)
    requires rows[p.row][p.col] == BoxLeft && rows[p.row][p.col + 1] == BoxRight
    requires var q := Point2(p.row, p.col + 2);
      !Refilled(rows, q, Right) && Integrity(inner) && WideFrame(inner, rows, q, Right) && inner[q.row][q.col] == Empty
    ensures var o := ShiftRight(inner, p);
      Integrity(o) && BoxFrame(o, rows, p, Right) && o[p.row][p.col] == Empty
  {
    var q := Point2(p.row, p.col + 2);
    assert !Reach(rows, q, Right, p) && !Reach(rows, q, Right, Point2(p.row, p.col + 1));
    ShiftRightIntegrity(inner, p);
    var o := ShiftRight(inner, p);
    forall i, j | 0 <= i < |rows| && 0 <= j < |rows[i]| && !BoxReach(p, Right, Point2(i, j))
      ensures o[i][j] == rows[i][j]
    {
      assert !Reach(rows, q, Right, Point2(i, j));
    }
  }

  lemma {:induction false} PushLeftFacts(rows: Rows, p: Point2)
    requires Integrity(rows) && In(rows, Point2(p.row, p.col + 1)) && p.col > 0
    requires rows[p.row][p.col] == BoxLeft && rows[p.row][p.col + 1] == BoxRight
    ensures var o := PushLeft(rows, p, true);
      o.push.Moved? ==> Integrity(o.rows) && BoxFrame(o.rows, rows, p, Left) && o.rows[p.row][p.col + 1] == Empty
    decreases 2 * BoxDistance(rows, p, Left), 1
  {
    var q := Point2(p.row, p.col - 1);
    var o := PushLeft(rows, p, true);
    WideFacts(rows, q, Left);
    var inner := MoveWide(rows, q, Left, true);
    if inner.push.Moved? {
      assert CellOk(rows[q.row], q.col);
      PushLeftStep(rows, p, inner.rows);
      assert o.rows == Replace(inner.rows, p, q);
    } else {
      assert o == inner;
    }
  }

  /** The bookkeeping of `PushLeftFacts` once the cell in front has moved. */
  lemma PushLeftStep(rows: Rows, p: Point2, inner: Rows)
    requires Integrity(rows) && In(rows, Point2(p.row, p.col + 1)) && p.col > 0 && SameShape(inner, rows)
    requires rows[p.row][p.col] == BoxLeft && rows[p.row][p.col + 1] == BoxRight
    requires var q := Point2(p.row, p.col - 1);
      !Refilled(rows, q, Left) && Integrity(inner) && WideFrame(inner, rows, q, Left) && inner[q.row][q.col] == Empty
    ensures var o := Replace(inner, p, Point2(p.row, p.col - 1));
      Integrity(o) && BoxFrame(o, rows, p, Left) && o[p.row][p.col + 1] == Empty
  {
    var q := Point2(p.row, p.col - 1);
    assert !Reach(rows, q, Left, p) && !Reach(rows, q, Left, Point2(p.row, p.col + 1));
    ShiftLeftIntegrity(inner, p);
    var o := Replace(inner, p, q);
    forall i, j | 0 <= i < |rows| && 0 <= j < |rows[i]| && !BoxReach(p, Left, Point2(i, j))
      ensures o[i][j] == rows[i][j]
    {
      assert !Reach(rows, q, Left, Point2(i, j));
    }
  }

  lemma {:induction false} LiftFacts(rows: Rows, p: Point2, newPos: Point2, d: Direction)
    requires Integrity(rows) && In(rows, Point2(p.row, p.col + 1))
    requires rows[p.row][p.col] == BoxLeft && rows[p.row][p.col + 1] == BoxRight
    requires d == Up || d == Down
    requires CellInDirection(p, d) == Some(newPos)
    ensures var o := LiftBox(rows, p, newPos, d, true);
      o.push.Moved? ==>
        Integrity(o.rows) && BoxFrame(o.rows, rows, p, d) &&
        o.rows[p.row][p.col] == Empty && o.rows[p.row][p.col + 1] == Empty
    decreases 2 * BoxDistance(rows, p, d), 1
  {
    var o := LiftBox(rows, p, newPos, d, true);
    WideFacts(rows, newPos, d);
    var first := MoveWide(rows, newPos, d, true);
    if first.push.Moved? {
      assert !Refilled(rows, newPos, d);
      LiftRestFacts(rows, first.rows, p, newPos, d);
      assert o == LiftRest(rows, first.rows, p, newPos, d, true);
    } else {
      assert o == first;
    }
  }

  lemma {:induction false} LiftRestFacts(rows: Rows, mid: Rows, p: Point2, newPos: Point2, d: Direction)
    requires Integrity(rows) && In(rows, Point2(p.row, p.col + 1))
    requires rows[p.row][p.col] == BoxLeft && rows[p.row][p.col + 1] == BoxRight
    requires d == Up || d == Down
    requires CellInDirection(p, d) == Some(newPos)
    requires In(rows, newPos) && SameShape(mid, rows)
    requires Integrity(mid) && WideFrame(mid, rows, newPos, d) && mid[newPos.row][newPos.col] == Empty
    ensures var o := LiftRest(rows, mid, p, newPos, d, true);
      o.push.Moved? ==>
        Integrity(o.rows) && BoxFrame(o.rows, rows, p, d) &&
        o.rows[p.row][p.col] == Empty && o.rows[p.row][p.col + 1] == Empty
    decreases 2 * BoxDistance(rows, p, d), 0
  {
    var newRightPos := Point2(newPos.row, newPos.col + 1);
    var o := LiftRest(rows, mid, p, newPos, d, true);
    WideFacts(mid, newRightPos, d);
    var second := MoveWide(mid, newRightPos, d, true);
    if second.push.Moved? {
      LiftSecond(rows, p, newPos, d, mid, second.rows);
      assert o.rows == Replace(second.rows, p, newPos);
    } else {
      assert !o.push.Moved?;
    }
  }

  /** The bookkeeping of `LiftFacts` once both halves have moved. */
  lemma LiftSecond(rows: Rows, p: Point2, newPos: Point2, d: Direction, first: Rows, second: Rows)
    requires Integrity(rows) && In(rows, Point2(p.row, p.col + 1))
    requires rows[p.row][p.col] == BoxLeft && rows[p.row][p.col + 1] == BoxRight
    requires d == Up || d == Down
    requires CellInDirection(p, d) == Some(newPos)
    requires In(rows, newPos) && SameShape(first, rows) && SameShape(second, rows)
    requires Integrity(first) && WideFrame(first, rows, newPos, d) && first[newPos.row][newPos.col] == Empty
    requires In(first, Point2(newPos.row, newPos.col + 1))
    requires Integrity(second) && WideFrame(second, first, Point2(newPos.row, newPos.col + 1), d)
    requires second[newPos.row][newPos.col + 1] == Empty
    ensures Integrity(Replace(second, p, newPos)) && BoxFrame(Replace(second, p, newPos), rows, p, d)
    ensures Replace(second, p, newPos)[p.row][p.col] == Empty && Replace(second, p, newPos)[p.row][p.col + 1] == Empty
  {
    var newRightPos := Point2(newPos.row, newPos.col + 1);
    assert CellOk(first[newPos.row], newPos.col + 1);
    assert !Reach(first, newRightPos, d, newPos);
    assert !Reach(rows, newPos, d, p) && !Reach(rows, newPos, d, Point2(p.row, p.col + 1));
    assert !Reach(first, newRightPos, d, p) && !Reach(first, newRightPos, d, Point2(p.row, p.col + 1));
    LiftIntegrity(second, p, newPos);
    var o := Replace(second, p, newPos);
    forall i, j | 0 <= i < |rows| && 0 <= j < |rows[i]| && !BoxReach(p, d, Point2(i, j))
      ensures o[i][j] == rows[i][j]
    {
      assert !Reach(rows, newPos, d, Point2(i, j));
      assert !Reach(first, newRightPos, d, Point2(i, j));
    }
  }

  // ---------------------------------------------------------------------------
  // On an enclosed map of whole boxes nothing panics.

  /** An atomic push on an enclosed map of whole boxes never runs off the map
      and never finds half a box; an object that moved is still on the map. */
  lemma {:induction false} WideNoPanic(rows: Rows, q: Point2, d: Direction)
    requires Enclosed(rows, Wall) && Integrity(rows) && In(rows, q)
    ensures var o := MoveWide(rows, q, d, true);
      o.push != Panic && (o.push.Moved? ==> In(rows, o.push.to))
    decreases 2 * Distance(rows, q, d) + 1, 1
  {
    var current := rows[q.row][q.col];
    if current != Wall {
      Interior(rows, Wall, q, d);
      var newPos := CellInDirection(q, d).value;
      if current == Robot {
        WideNoPanic(rows, newPos, d);
      } else if current == BoxLeft {
        BoxNoPanic(rows, q, d);
      } else if current == BoxRight {
        assert CellOk(rows[q.row], q.col);
        BoxNoPanic(rows, Point2(q.row, q.col - 1), d);
      }
    }
  }

  lemma {:induction false} BoxNoPanic(rows: Rows, p: Point2, d: Direction)
    requires Enclosed(rows, Wall) && Integrity(rows) && In(rows, p) && rows[p.row][p.col] == BoxLeft
    ensures var o := MoveBox(rows, p, d, true);
      o.push != Panic && (o.push.Moved? ==> In(rows, o.push.to))
    decreases 2 * BoxDistance(rows, p, d), 2
  {
    assert CellOk(rows[p.row], p.col);
    var rightPos := Point2(p.row, p.col + 1);
    Interior(rows, Wall, p, d);
    Interior(rows, Wall, rightPos, d);
    var newPos := CellInDirection(p, d).value;
    if newPos == rightPos {
      WideNoPanic(rows, Point2(p.row, p.col + 2), Right);
    } else if d == Left {
      WideNoPanic(rows, newPos, Left);
    } else {
      LiftNoPanic(rows, p, newPos, d);
    }
  }

  lemma {:induction false} LiftNoPanic(rows: Rows, p: Point2, newPos: Point2, d: Direction)
    requires Enclosed(rows, Wall) && Integrity(rows) && In(rows, Point2(p.row, p.col + 1))
    requires rows[p.row][p.col] == BoxLeft && rows[p.row][p.col + 1] == BoxRight
    requires d == Up || d == Down
    requires CellInDirection(p, d) == Some(newPos) && In(rows, newPos)
    ensures LiftBox(rows, p, newPos, d, true).push != Panic
    decreases 2 * BoxDistance(rows, p, d), 1
  {
    WideNoPanic(rows, newPos, d);
    var first := MoveWide(rows, newPos, d, true);
    if first.push.Moved? {
      StillEnclosed(rows, newPos, d);
      Interior(rows, Wall, Point2(p.row, p.col + 1), d);
      LiftRestNoPanic(rows, first.rows, p, newPos, d);
    }
  }

  lemma {:induction false} LiftRestNoPanic(rows: Rows, mid: Rows, p: Point2, newPos: Point2, d: Direction)
    requires In(rows, p) && In(rows, Point2(p.row, p.col + 1)) && SameShape(mid, rows)
    requires d == Up || d == Down
    requires CellInDirection(p, d) == Some(newPos)
    requires Enclosed(mid, Wall) && Integrity(mid) && In(mid, Point2(newPos.row, newPos.col + 1))
    ensures LiftRest(rows, mid, p, newPos, d, true).push != Panic
    decreases 2 * BoxDistance(rows, p, d), 0
  {
    WideNoPanic(mid, Point2(newPos.row, newPos.col + 1), d);
  }

  /** After a successful atomic push an enclosed map of whole boxes is still
      one. */
  lemma StillEnclosed(rows: Rows, q: Point2, d: Direction)
    requires Enclosed(rows, Wall) && Integrity(rows)
    ensures var o := MoveWide(rows, q, d, true);
      o.push.Moved? ==> Enclosed(o.rows, Wall) && Integrity(o.rows)
  {
    var o := MoveWide(rows, q, d, true);
    if o.push.Moved? {
      WideWalls(rows, q, d, true);
      assert SameWalls(rows, o.rows, Wall);
      SameWallsEnclosed(rows, o.rows, Wall);
      WideFacts(rows, q, d);
    }
  }

  // ---------------------------------------------------------------------------
  // Following the moves.

  /** The wide map after the robot at `robot` makes `moves`, with the atomic
      push; `None` if a move panics or leaves half a box behind (the
      integrity check after every move is a debug assertion). */
  function WalkWide(rows: Rows, robot: Point2, moves: seq<Direction>): (r: Option<Rows>)
    ensures r.Some? ==> SameShape(r.value, rows)
    ensures r.Some? && moves != [] ==> Integrity(r.value)
    decreases |moves|
  {
    if moves == [] then Some(rows)
    else
      var o := MoveWide(rows, robot, moves[0], true);
      if o.push == Panic || !Integrity(o.rows) then None
      else WalkWide(o.rows, if o.push.Moved? then o.push.to else robot, moves[1..])
  }

  /** `move_robot` on the upscaled map: the robot is its first `@`. */
  function RunRobotWide(input: Day15.Input): (r: Option<Rows>)
    ensures r.Some? ==> First(UpscaleMap(input.warehouse), Robot).Some? && SameShape(r.value, UpscaleMap(input.warehouse))
  {
    var up := UpscaleMap(input.warehouse);
    match First(up, Robot)
    case None => None
    case Some(p) => WalkWide(up, p, input.moves)
  }

  /** On an enclosed map of whole boxes the robot gets through any list of
      moves: no push panics and the integrity check never fails. */
  lemma {:induction false} WalkWideEnclosed(rows: Rows, robot: Point2, moves: seq<Direction>)
    requires Enclosed(rows, Wall) && Integrity(rows) && In(rows, robot)
    ensures WalkWide(rows, robot, moves).Some?
    ensures SameWalls(WalkWide(rows, robot, moves).value, rows, Wall)
    decreases |moves|
  {
    if moves != [] {
      var o := MoveWide(rows, robot, moves[0], true);
      WideNoPanic(rows, robot, moves[0]);
      WideWalls(rows, robot, moves[0], true);
      WideStuck(rows, robot, moves[0]);
      if o.push.Moved? {
        WideFacts(rows, robot, moves[0]);
      }
      assert SameWalls(rows, o.rows, Wall);
      SameWallsEnclosed(rows, o.rows, Wall);
      var next := if o.push.Moved? then o.push.to else robot;
      WalkWideEnclosed(o.rows, next, moves[1..]);
      SameWallsTrans(WalkWide(rows, robot, moves).value, o.rows, rows, Wall);
    }
  }

  /** Every enclosed puzzle map with a robot on it, once upscaled, gets
      through its moves with every box whole after every move. */
  lemma RunRobotWideEnclosed(input: Day15.Input)
    requires Enclosed(input.warehouse, Day15.Wall)
    requires exists i, j :: 0 <= i < |input.warehouse| && 0 <= j < |input.warehouse[i]| && input.warehouse[i][j] == Day15.Robot
    ensures RunRobotWide(input).Some?
    ensures Integrity(RunRobotWide(input).value)
  {
    var up := UpscaleMap(input.warehouse);
    UpscaleEnclosed(input.warehouse);
    UpscaleIntegrity(input.warehouse);
    var i, j :| 0 <= i < |input.warehouse| && 0 <= j < |input.warehouse[i]| && input.warehouse[i][j] == Day15.Robot;
    assert up[i][2 * j] == Robot;
    FirstSound(up, Robot);
    var p := First(up, Robot).value;
    WalkWideEnclosed(up, p, input.moves);
    WalkWideIntegrity(up, p, input.moves);
  }

  /** Whatever map the walk ends on has passed the integrity check. */
  lemma {:induction false} WalkWideIntegrity(rows: Rows, robot: Point2, moves: seq<Direction>)
    requires Integrity(rows) && WalkWide(rows, robot, moves).Some?
    ensures Integrity(WalkWide(rows, robot, moves).value)
    decreases |moves|
  {
    if moves != [] {
      var o := MoveWide(rows, robot, moves[0], true);
      WalkWideIntegrity(o.rows, if o.push.Moved? then o.push.to else robot, moves[1..]);
    }
  }

  // ---------------------------------------------------------------------------
  // The same on boards.

  /** `move_object` on the wide board. The `BoxRight` arm goes straight to
      the `BoxLeft` arm for its left half, which is what the source's call
      on `left_pos` does. */
  method MoveObject(board: Board<UpscaledToken>, pos: Point2, d: Direction) returns (r: Push)
    modifies board
    ensures Outcome(board.rows, r) == MoveWide(old(board.rows), pos, d, true)
    decreases 2 * Distance(board.rows, pos, d) + 1, 0
  {
    if !board.InBounds(pos) {
      return Panic;
    }
    var current := board.At(pos);
    if current == Wall {
      return Stuck;
    }
    var next := CellInDirection(pos, d);
    if next.None? {
      return Panic;
    }
    var newPos := next.value;
    if current == Empty {
      return Moved(pos);
    } else if current == Robot {
      var inner := MoveObject(board, newPos, d);
      if inner.Moved? {
        board.Set(newPos, current);
        board.Set(pos, Empty);
        return Moved(newPos);
      }
      return inner;
    } else if current == BoxLeft {
      r := MoveBoxObject(board, pos, d);
    } else {
      if pos.col == 0 || board.At(Point2(pos.row, pos.col - 1)) != BoxLeft {
        return Panic;
      }
      var inner := MoveBoxObject(board, Point2(pos.row, pos.col - 1), d);
      if inner.Moved? {
        return Moved(newPos);
      }
      return inner;
    }
  }

  /** The `BoxLeft` arm, for the box whose left half is at `p`. */
  method MoveBoxObject(board: Board<UpscaledToken>, p: Point2, d: Direction) returns (r: Push)
    requires In(board.rows, p)
    modifies board
    ensures Outcome(board.rows, r) == MoveBox(old(board.rows), p, d, true)
    decreases 2 * BoxDistance(board.rows, p, d), 1
  {
    var next := CellInDirection(p, d);
    if next.None? {
      return Panic;
    }
    var newPos := next.value;
    var rightPos := Point2(p.row, p.col + 1);
    if !board.InBounds(rightPos) || board.At(rightPos) != BoxRight {
      return Panic;
    }
    var newRightPos := Point2(newPos.row, newPos.col + 1);
    if newPos == rightPos {
      var inner := MoveObject(board, newRightPos, d);
      if inner.Moved? {
        board.Set(p, Empty);
        board.Set(newRightPos, BoxRight);
        board.Set(newPos, BoxLeft);
        return Moved(newPos);
      }
      return inner;
    }
    if d == Left {
      var inner := MoveObject(board, newPos, d);
      if inner.Moved? {
        SetBox(board, p, newPos);
        return Moved(newPos);
      }
      return inner;
    }
    r := LiftBoxObject(board, p, newPos, d);
  }

  /** A vertical push on the board: the half in front of `[` first, then the
      one in front of `]`; if the second is blocked the board is put back. */
  method LiftBoxObject(board: Board<UpscaledToken>, p: Point2, newPos: Point2, d: Direction) returns (r: Push)
    requires In(board.rows, p) && In(board.rows, Point2(p.row, p.col + 1))
    requires d == Up || d == Down
    requires CellInDirection(p, d) == Some(newPos)
    modifies board
    ensures Outcome(board.rows, r) == LiftBox(old(board.rows), p, newPos, d, true)
    decreases 2 * BoxDistance(board.rows, p, d), 0
  {
    var saved := board.rows;
    var first := MoveObject(board, newPos, d);
    if !first.Moved? {
      return first;
    }
    var second := MoveObject(board, Point2(newPos.row, newPos.col + 1), d);
    if !second.Moved? {
      if second == Stuck {
        board.rows := saved;
      }
      return second;
    }
    SetBox(board, p, newPos);
    return Moved(newPos);
  }

  /** The four writes of `Replace` on the board. */
  method SetBox(board: Board<UpscaledToken>, p: Point2, q: Point2)
    requires In(board.rows, p) && In(board.rows, Point2(p.row, p.col + 1))
    requires In(board.rows, q) && In(board.rows, Point2(q.row, q.col + 1))
    modifies board
    ensures board.rows == Replace(old(board.rows), p, q)
  {
    board.Set(p, Empty);
    board.Set(Point2(p.row, p.col + 1), Empty);
    board.Set(q, BoxLeft);
    board.Set(Point2(q.row, q.col + 1), BoxRight);
  }

  /** `move_robot` on the wide board; after every move the board goes
      through `check_box_integrity`, and a failed check is a panic. */
  method MoveRobot(rows: Rows, moves: seq<Direction>) returns (r: Option<Board<UpscaledToken>>)
    ensures r.None? <==> (First(rows, Robot).None? || WalkWide(rows, First(rows, Robot).value, moves).None?)
    ensures r.Some? ==> r.value.rows == WalkWide(rows, First(rows, Robot).value, moves).value
  {
    var board := new Board<UpscaledToken>(rows);
    var found := board.Find(Robot);
    if found.None? {
      return None;
    }
    var robotPos := found.value;
    var k := 0;
    while k < |moves|
      invariant 0 <= k <= |moves|
      invariant WalkWide(rows, found.value, moves) == WalkWide(board.rows, robotPos, moves[k..])
    {
      assert moves[k..][0] == moves[k] && moves[k..][1..] == moves[k + 1..];
      var push := MoveObject(board, robotPos, moves[k]);
      if push.Panic? {
        return None;
      }
      if push.Moved? {
        robotPos := push.to;
      }
      var intact := CheckBoxIntegrity(board);
      if intact != Some(true) {
        return None;
      }
      k := k + 1;
    }
    return Some(board);
  }

  /** `solve` for part two: upscale, move the robot, then add up the
      coordinates of the boxes' left halves. */
  method Solve(input: Day15.Input) returns (r: Option<nat>)
    ensures r.None? <==> RunRobotWide(input).None?
    ensures r.Some? ==> r.value == Gps(RunRobotWide(input).value, BoxLeft)
  {
    var robotRun := MoveRobot(UpscaleMap(input.warehouse), input.moves);
    if robotRun.None? {
      return None;
    }
    var sum := SumUpCoordinates(robotRun.value, BoxLeft);
    return Some(sum);
  }

  // ---------------------------------------------------------------------------
  // Examples, transcribed cell by cell.

  /** The upscaling test: `#@.#` becomes `##@...##`, `#O.#` becomes `##[]..##`. */
  lemma UpscaleExample()
    ensures UpscaleMap([[Day15.Wall, Day15.Wall, Day15.Wall, Day15.Wall],
      [Day15.Wall, Day15.Robot, Day15.Empty, Day15.Wall],
      [Day15.Wall, Day15.Box, Day15.Empty, Day15.Wall],
      [Day15.Wall, Day15.Wall, Day15.Wall, Day15.Wall]]) ==
      [[Wall, Wall, Wall, Wall, Wall, Wall, Wall, Wall],
       [Wall, Wall, Robot, Empty, Empty, Empty, Wall, Wall],
       [Wall, Wall, BoxLeft, BoxRight, Empty, Empty, Wall, Wall],
       [Wall, Wall, Wall, Wall, Wall, Wall, Wall, Wall]]
  {
    var narrow := [[Day15.Wall, Day15.Wall, Day15.Wall, Day15.Wall],
      [Day15.Wall, Day15.Robot, Day15.Empty, Day15.Wall],
      [Day15.Wall, Day15.Box, Day15.Empty, Day15.Wall],
      [Day15.Wall, Day15.Wall, Day15.Wall, Day15.Wall]];
    var up := UpscaleMap(narrow);
    UpscaleRowExample(Day15.Wall, Day15.Wall);
    UpscaleRowExample(Day15.Robot, Day15.Empty);
    UpscaleRowExample(Day15.Box, Day15.Empty);
    assert up[0] == [Wall, Wall, Wall, Wall, Wall, Wall, Wall, Wall];
    assert up[1] == [Wall, Wall, Robot, Empty, Empty, Empty, Wall, Wall];
    assert up[2] == [Wall, Wall, BoxLeft, BoxRight, Empty, Empty, Wall, Wall];
    assert up[3] == up[0];
  }

  /** A row of the example: two tokens between walls. */
  lemma UpscaleRowExample(x: Day15.Token, y: Day15.Token)
    ensures UpscaleRow([Day15.Wall, x, y, Day15.Wall]) == [Wall, Wall] + UpscaleToken(x) + UpscaleToken(y) + [Wall, Wall]
  {
    assert [Day15.Wall][1..] == [];
    assert [y, Day15.Wall][1..] == [Day15.Wall];
    assert [x, y, Day15.Wall][1..] == [y, Day15.Wall];
    assert [Day15.Wall, x, y, Day15.Wall][1..] == [x, y, Day15.Wall];
    assert UpscaleRow([Day15.Wall]) == [Wall, Wall];
    assert UpscaleRow([y, Day15.Wall]) == UpscaleToken(y) + [Wall, Wall];
    assert UpscaleRow([x, y, Day15.Wall]) == UpscaleToken(x) + UpscaleToken(y) + [Wall, Wall];
  }

  /** The first `>` of `PushBoxRightExample`: the robot takes the empty cell. */
  lemma PushBoxRightFirst()
    ensures MoveWide([[Wall, Wall, Robot, Empty, BoxLeft, BoxRight, Empty, Empty]], Point2(0, 2), Right, true) ==
      Outcome([[Wall, Wall, Empty, Robot, BoxLeft, BoxRight, Empty, Empty]], Moved(Point2(0, 3)))
    ensures Integrity([[Wall, Wall, Empty, Robot, BoxLeft, BoxRight, Empty, Empty]])
  {
    var up := [[Wall, Wall, Robot, Empty, BoxLeft, BoxRight, Empty, Empty]];
    var m1 := [[Wall, Wall, Empty, Robot, BoxLeft, BoxRight, Empty, Empty]];
    assert up[0][3 := Robot] == [Wall, Wall, Robot, Robot, BoxLeft, BoxRight, Empty, Empty];
    assert Put(up, Point2(0, 3), Robot) == [[Wall, Wall, Robot, Robot, BoxLeft, BoxRight, Empty, Empty]];
    assert [Wall, Wall, Robot, Robot, BoxLeft, BoxRight, Empty, Empty][2 := Empty] == m1[0];
    assert Put(Put(up, Point2(0, 3), Robot), Point2(0, 2), Empty) == m1;
    assert CellOk(m1[0], 4) && CellOk(m1[0], 5);
  }

  /** The second `>`: the robot pushes the box one cell. */
  lemma PushBoxRightSecond()
    ensures MoveWide([[Wall, Wall, Empty, Robot, BoxLeft, BoxRight, Empty, Empty]], Point2(0, 3), Right, true) ==
      Outcome([[Wall, Wall, Empty, Empty, Robot, BoxLeft, BoxRight, Empty]], Moved(Point2(0, 4)))
    ensures Integrity([[Wall, Wall, Empty, Empty, Robot, BoxLeft, BoxRight, Empty]])
  {
    var m1 := [[Wall, Wall, Empty, Robot, BoxLeft, BoxRight, Empty, Empty]];
    var s1 := [[Wall, Wall, Empty, Robot, Empty, BoxLeft, BoxRight, Empty]];
    PushBoxRightShift();
    assert PushRight(m1, Point2(0, 4), true) == Outcome(s1, Moved(Point2(0, 5)));
    assert MoveWide(m1, Point2(0, 4), Right, true) == Outcome(s1, Moved(Point2(0, 5)));
    var m2 := [[Wall, Wall, Empty, Empty, Robot, BoxLeft, BoxRight, Empty]];
    assert s1[0][4 := Robot] == [Wall, Wall, Empty, Robot, Robot, BoxLeft, BoxRight, Empty];
    assert Put(s1, Point2(0, 4), Robot) == [[Wall, Wall, Empty, Robot, Robot, BoxLeft, BoxRight, Empty]];
    assert [Wall, Wall, Empty, Robot, Robot, BoxLeft, BoxRight, Empty][3 := Empty] == m2[0];
    assert Put(Put(s1, Point2(0, 4), Robot), Point2(0, 3), Empty) == m2;
    assert CellOk(m2[0], 5) && CellOk(m2[0], 6);
  }

  lemma PushBoxRightShift()
    ensures ShiftRight([[Wall, Wall, Empty, Robot, BoxLeft, BoxRight, Empty, Empty]], Point2(0, 4)) ==
      [[Wall, Wall, Empty, Robot, Empty, BoxLeft, BoxRight, Empty]]
  {
    var m1 := [[Wall, Wall, Empty, Robot, BoxLeft, BoxRight, Empty, Empty]];
    assert m1[0][4 := Empty] == [Wall, Wall, Empty, Robot, Empty, BoxRight, Empty, Empty];
    assert Put(m1, Point2(0, 4), Empty) == [[Wall, Wall, Empty, Robot, Empty, BoxRight, Empty, Empty]];
    assert [Wall, Wall, Empty, Robot, Empty, BoxRight, Empty, Empty][6 := BoxRight] == [Wall, Wall, Empty, Robot, Empty, BoxRight, BoxRight, Empty];
    assert Put([[Wall, Wall, Empty, Robot, Empty, BoxRight, Empty, Empty]], Point2(0, 6), BoxRight) == [[Wall, Wall, Empty, Robot, Empty, BoxRight, BoxRight, Empty]];
    assert [Wall, Wall, Empty, Robot, Empty, BoxRight, BoxRight, Empty][5 := BoxLeft] == [Wall, Wall, Empty, Robot, Empty, BoxLeft, BoxRight, Empty];
  }

  /** `#@O.` with `>>`: the robot steps right, then pushes the box one cell. */
  lemma PushBoxRightExample()
    ensures RunRobotWide(Day15.Input([[Day15.Wall, Day15.Robot, Day15.Box, Day15.Empty]], [Right, Right])) ==
      Some([[Wall, Wall, Empty, Empty, Robot, BoxLeft, BoxRight, Empty]])
  {
    var up := [[Wall, Wall, Robot, Empty, BoxLeft, BoxRight, Empty, Empty]];
    assert UpscaleRow([Day15.Wall, Day15.Robot, Day15.Box, Day15.Empty]) == up[0];
    assert UpscaleMap([[Day15.Wall, Day15.Robot, Day15.Box, Day15.Empty]]) == up;
    PushBoxRightFirst();
    PushBoxRightSecond();
    var m1 := [[Wall, Wall, Empty, Robot, BoxLeft, BoxRight, Empty, Empty]];
    var m2 := [[Wall, Wall, Empty, Empty, Robot, BoxLeft, BoxRight, Empty]];
    assert [Right, Right][1..] == [Right] && [Right][1..] == [];
    assert WalkWide(m1, Point2(0, 3), [Right]) == WalkWide(m2, Point2(0, 4), []);
    assert WalkWide(up, Point2(0, 2), [Right, Right]) == WalkWide(m1, Point2(0, 3), [Right]);
    FirstAt(up, Robot, Point2(0, 2));
  }

  /** A small map on which a vertical push is interrupted: the robot pushes
      up the box above it, whose left half pushes a box that can move and
      whose right half is under a wall. */
  const Interrupted: Rows :=
    [[Wall, Wall, Wall, Wall, Wall, Wall],
     [Wall, Empty, Empty, Empty, Empty, Wall],
     [Wall, BoxLeft, BoxRight, Wall, Empty, Wall],
     [Wall, Empty, BoxLeft, BoxRight, Empty, Wall],
     [Wall, Empty, Robot, Empty, Empty, Wall],
     [Wall, Wall, Wall, Wall, Wall, Wall]]

  /** `Interrupted` after the upper box has moved up, and nothing else. */
  const Scrambled: Rows :=
    [[Wall, Wall, Wall, Wall, Wall, Wall],
     [Wall, BoxLeft, BoxRight, Empty, Empty, Wall],
     [Wall, Empty, Empty, Wall, Empty, Wall],
     [Wall, Empty, BoxLeft, BoxRight, Empty, Wall],
     [Wall, Empty, Robot, Empty, Empty, Wall],
     [Wall, Wall, Wall, Wall, Wall, Wall]]

  /** The steps both kinds of push share on `Interrupted`: the upper box
      moves, then the right half of the lower box is blocked. */
  lemma InterruptedSteps(atomic: bool)
    ensures MoveWide(Interrupted, Point2(2, 2), Up, atomic) == Outcome(Scrambled, Moved(Point2(1, 2)))
    ensures MoveWide(Scrambled, Point2(2, 3), Up, atomic) == Outcome(Scrambled, Stuck)
  {
    UpperBoxLifts(atomic);
  }

  /** The upper box of `Interrupted` has room above it and moves up. */
  lemma UpperBoxLifts(atomic: bool)
    ensures MoveBox(Interrupted, Point2(2, 1), Up, atomic) == Outcome(Scrambled, Moved(Point2(1, 1)))
  {
    var x := Interrupted;
    assert MoveWide(x, Point2(1, 1), Up, atomic) == Outcome(x, Moved(Point2(1, 1)));
    assert MoveWide(x, Point2(1, 2), Up, atomic) == Outcome(x, Moved(Point2(1, 2)));
    InterruptedReplace();
    assert LiftRest(x, x, Point2(2, 1), Point2(1, 1), Up, atomic) == Outcome(Scrambled, Moved(Point2(1, 1)));
    assert LiftBox(x, Point2(2, 1), Point2(1, 1), Up, atomic) == Outcome(Scrambled, Moved(Point2(1, 1)));
  }

  /** Lifting the upper box of `Interrupted` by one row gives `Scrambled`. */
  lemma InterruptedReplace()
    ensures Replace(Interrupted, Point2(2, 1), Point2(1, 1)) == Scrambled
  {
    var x := Interrupted;
    var a1 := [[Wall, Wall, Wall, Wall, Wall, Wall], [Wall, Empty, Empty, Empty, Empty, Wall], [Wall, Empty, BoxRight, Wall, Empty, Wall],
      [Wall, Empty, BoxLeft, BoxRight, Empty, Wall], [Wall, Empty, Robot, Empty, Empty, Wall], [Wall, Wall, Wall, Wall, Wall, Wall]];
    assert x[2][1 := Empty] == a1[2];
    assert Put(x, Point2(2, 1), Empty) == a1;
    var a2 := [[Wall, Wall, Wall, Wall, Wall, Wall], [Wall, Empty, Empty, Empty, Empty, Wall], [Wall, Empty, Empty, Wall, Empty, Wall],
      [Wall, Empty, BoxLeft, BoxRight, Empty, Wall], [Wall, Empty, Robot, Empty, Empty, Wall], [Wall, Wall, Wall, Wall, Wall, Wall]];
    assert a1[2][2 := Empty] == a2[2];
    assert Put(a1, Point2(2, 2), Empty) == a2;
    var a3 := [[Wall, Wall, Wall, Wall, Wall, Wall], [Wall, BoxLeft, Empty, Empty, Empty, Wall], [Wall, Empty, Empty, Wall, Empty, Wall],
      [Wall, Empty, BoxLeft, BoxRight, Empty, Wall], [Wall, Empty, Robot, Empty, Empty, Wall], [Wall, Wall, Wall, Wall, Wall, Wall]];
    assert a2[1][1 := BoxLeft] == a3[1];
    assert Put(a2, Point2(1, 1), BoxLeft) == a3;
    assert a3[1][2 := BoxRight] == Scrambled[1];
    assert Put(a3, Point2(1, 2), BoxRight) == Scrambled;
  }

  /** As written: the push reports that it was blocked, yet the upper box has
      moved. */
  lemma NonAtomicPush()
    ensures MoveWide(Interrupted, Point2(4, 2), Up, false) == Outcome(Scrambled, Stuck)
    ensures Scrambled != Interrupted
  {
    InterruptedSteps(false);
    assert LiftBox(Interrupted, Point2(3, 2), Point2(2, 2), Up, false) == Outcome(Scrambled, Stuck);
    assert MoveWide(Interrupted, Point2(3, 2), Up, false) == Outcome(Scrambled, Stuck);
    assert Scrambled[1][1] != Interrupted[1][1];
  }

  /** With the atomic push the same move is blocked and changes nothing. */
  lemma AtomicPush()
    ensures MoveWide(Interrupted, Point2(4, 2), Up, true) == Outcome(Interrupted, Stuck)
  {
    InterruptedSteps(true);
    assert LiftBox(Interrupted, Point2(3, 2), Point2(2, 2), Up, true) == Outcome(Interrupted, Stuck);
    assert MoveWide(Interrupted, Point2(3, 2), Up, true) == Outcome(Interrupted, Stuck);
  }
}

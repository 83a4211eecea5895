// Day 15, part one: a robot walks a warehouse map following a list of moves.
// Moving into an empty cell just takes it; moving into a box pushes the whole
// line of boxes in front of it, unless that line ends at a wall, in which case
// nothing moves.
module Day15 {
  import opened Wrappers
  import opened Board
  import opened Warehouse

  datatype Token = Wall | Empty | Robot | Box

  /** The parsed puzzle: the map and the robot's moves in order. */
  datatype Input = Input(warehouse: seq<seq<Token>>, moves: seq<Direction>)

  // ---------------------------------------------------------------------------
  // Moving one object.

  /** `move_object`: the object at `p` moves one cell along `d` if whatever
      is in front of it can first move out of the way. */
  function Move(rows: seq<seq<Token>>, p: Point2, d: Direction): (o: Outcome<Token>)
    ensures SameShape(o.rows, rows)
    ensures o.push != Panic ==> In(rows, p)
    decreases Distance(rows, p, d)
  {
    if !In(rows, p) then Outcome(rows, Panic)
    else
      var current := rows[p.row][p.col];
      if current == Wall then Outcome(rows, Stuck)
      else if current == Empty then Outcome(rows, Moved(p))
      else
        match CellInDirection(p, d)
        case None => Outcome(rows, Panic)
        case Some(q) =>
          var inner := Move(rows, q, d);
          if inner.push.Moved? then Outcome(Put(Put(inner.rows, q, current), p, Empty), Moved(q))
          else inner
  }

  /** A blocked push leaves the map as it was. */
  lemma {:induction false} StuckUnchanged(rows: seq<seq<Token>>, p: Point2, d: Direction)
    ensures Move(rows, p, d).push == Stuck ==> Move(rows, p, d).rows == rows
    decreases Distance(rows, p, d)
  {
    if In(rows, p) && rows[p.row][p.col] != Wall && rows[p.row][p.col] != Empty && CellInDirection(p, d).Some? {
      StuckUnchanged(rows, CellInDirection(p, d).value, d);
    }
  }

  /** A successful move leaves the start cell empty; an object that moved is
      now in the neighbouring cell. */
  lemma MovedVacates(rows: seq<seq<Token>>, p: Point2, d: Direction)
    requires Move(rows, p, d).push.Moved?
    ensures var o := Move(rows, p, d);
      o.rows[p.row][p.col] == Empty &&
      (rows[p.row][p.col] == Empty ==> o.push.to == p && o.rows == rows) &&
      (rows[p.row][p.col] != Empty ==>
        CellInDirection(p, d) == Some(o.push.to) && o.rows[o.push.to.row][o.push.to.col] == rows[p.row][p.col])
  {
  }

  /** Writing two non-wall tokens over two non-wall cells keeps the walls. */
  lemma PutWalls(a: seq<seq<Token>>, b: seq<seq<Token>>, p: Point2, q: Point2, x: Token, y: Token)
    requires SameWalls(a, b, Wall) && In(a, p) && In(a, q)
    requires a[p.row][p.col] != Wall && a[q.row][q.col] != Wall && x != Wall && y != Wall
    ensures SameWalls(Put(Put(a, q, x), p, y), b, Wall)
  {
  }

  /** Only cells on the ray from `p` along `d` can change. */
  lemma {:induction false} MoveFrame(rows: seq<seq<Token>>, p: Point2, d: Direction)
    ensures SameOffRay(Move(rows, p, d).rows, rows, p, d)
    decreases Distance(rows, p, d)
  {
    if In(rows, p) && rows[p.row][p.col] != Wall && rows[p.row][p.col] != Empty && CellInDirection(p, d).Some? {
      var q := CellInDirection(p, d).value;
      MoveFrame(rows, q, d);
      var inner := Move(rows, q, d);
      if inner.push.Moved? {
        PutOffRay(inner.rows, rows, p, q, d, rows[p.row][p.col], Empty);
      }
    }
  }

  /** Walls never move. */
  lemma {:induction false} MoveKeepsWalls(rows: seq<seq<Token>>, p: Point2, d: Direction)
    ensures SameWalls(Move(rows, p, d).rows, rows, Wall)
    decreases Distance(rows, p, d)
  {
    if In(rows, p) && rows[p.row][p.col] != Wall && rows[p.row][p.col] != Empty && CellInDirection(p, d).Some? {
      var q := CellInDirection(p, d).value;
      MoveKeepsWalls(rows, q, d);
      var inner := Move(rows, q, d);
      if inner.push.Moved? {
        MovedVacates(rows, q, d);
        PutWalls(inner.rows, rows, p, q, rows[p.row][p.col], Empty);
      }
    }
  }

  /** Nothing is created or destroyed: the map holds the same tokens after a
      move, whatever its outcome. */
  lemma {:induction false} MoveKeepsTokens(rows: seq<seq<Token>>, p: Point2, d: Direction)
    ensures Cells(Move(rows, p, d).rows) == Cells(rows)
    decreases Distance(rows, p, d)
  {
    if In(rows, p) && rows[p.row][p.col] != Wall && rows[p.row][p.col] != Empty && CellInDirection(p, d).Some? {
      var current := rows[p.row][p.col];
      var q := CellInDirection(p, d).value;
      MoveKeepsTokens(rows, q, d);
      var inner := Move(rows, q, d);
      if inner.push.Moved? {
        MovedVacates(rows, q, d);
        MoveFrame(rows, q, d);
        assert !Ahead(p, q, d);
        assert inner.rows[p.row][p.col] == current;
        var mid := Put(inner.rows, q, current);
        CellsPut(inner.rows, q, current);
        assert Cells(mid) + multiset{Empty} == Cells(rows) + multiset{current};
        assert mid[p.row][p.col] == current;
        CellsPut(mid, p, Empty);
        var fin := Put(mid, p, Empty);
        assert Cells(fin) + multiset{current} == Cells(rows) + multiset{current};
        MultisetCancel(Cells(fin), Cells(rows), current);
      }
    }
  }

  /** On an enclosed map a move from any cell never runs off the map. */
  lemma {:induction false} EnclosedNeverPanics(rows: seq<seq<Token>>, p: Point2, d: Direction)
    requires Enclosed(rows, Wall) && In(rows, p)
    ensures Move(rows, p, d).push != Panic
    decreases Distance(rows, p, d)
  {
    if rows[p.row][p.col] != Wall && rows[p.row][p.col] != Empty {
      Interior(rows, Wall, p, d);
      EnclosedNeverPanics(rows, CellInDirection(p, d).value, d);
    }
  }

  /** `move_object` on the board itself, recursing in front of it before
      writing the two cells. */
  method MoveObject(board: Board<Token>, pos: Point2, d: Direction) returns (r: Push)
    modifies board
    ensures Outcome(board.rows, r) == Move(old(board.rows), pos, d)
    decreases Distance(board.rows, pos, d)
  {
    if !board.InBounds(pos) {
      return Panic;
    }
    var current := board.At(pos);
    if current == Wall {
      return Stuck;
    }
    if current == Empty {
      return Moved(pos);
    }
    var next := CellInDirection(pos, d);
    if next.None? {
      return Panic;
    }
    var newPos := next.value;
    var inner := MoveObject(board, newPos, d);
    if inner.Moved? {
      board.Set(newPos, current);
      board.Set(pos, Empty);
      return Moved(newPos);
    }
    return inner;
  }

  // ---------------------------------------------------------------------------
  // Following the moves.

  /** The map after the robot at `robot` makes `moves`; `None` if a move
      panics. */
  function Walk(rows: seq<seq<Token>>, robot: Point2, moves: seq<Direction>): (r: Option<seq<seq<Token>>>)
    ensures r.Some? ==> SameShape(r.value, rows)
    decreases |moves|
  {
    if moves == [] then Some(rows)
    else
      var o := Move(rows, robot, moves[0]);
      match o.push
      case Panic => None
      case Stuck => Walk(o.rows, robot, moves[1..])
      case Moved(q) => Walk(o.rows, q, moves[1..])
  }

  /** `move_robot`: the robot is the first `@` of the map; `None` where the
      source panics (no robot, or a move off the map). */
  function RunRobot(input: Input): (r: Option<seq<seq<Token>>>)
    ensures r.Some? ==> First(input.warehouse, Robot).Some? && SameShape(r.value, input.warehouse)
  {
    match First(input.warehouse, Robot)
    case None => None
    case Some(p) => Walk(input.warehouse, p, input.moves)
  }

  /** Following the moves keeps every token and every wall. */
  lemma {:induction false} WalkKeeps(rows: seq<seq<Token>>, robot: Point2, moves: seq<Direction>)
    requires Walk(rows, robot, moves).Some?
    ensures Cells(Walk(rows, robot, moves).value) == Cells(rows)
    ensures SameWalls(Walk(rows, robot, moves).value, rows, Wall)
    decreases |moves|
  {
    if moves != [] {
      var o := Move(rows, robot, moves[0]);
      MoveKeepsTokens(rows, robot, moves[0]);
      MoveKeepsWalls(rows, robot, moves[0]);
      var next := if o.push.Moved? then o.push.to else robot;
      WalkKeeps(o.rows, next, moves[1..]);
      SameWallsTrans(Walk(rows, robot, moves).value, o.rows, rows, Wall);
    }
  }

  /** On an enclosed map the robot never runs off it, whatever the moves. */
  lemma {:induction false} WalkEnclosed(rows: seq<seq<Token>>, robot: Point2, moves: seq<Direction>)
    requires Enclosed(rows, Wall) && In(rows, robot)
    ensures Walk(rows, robot, moves).Some?
    decreases |moves|
  {
    if moves != [] {
      var o := Move(rows, robot, moves[0]);
      EnclosedNeverPanics(rows, robot, moves[0]);
      MoveKeepsWalls(rows, robot, moves[0]);
      assert SameWalls(rows, o.rows, Wall);
      SameWallsEnclosed(rows, o.rows, Wall);
      if o.push.Moved? {
        var q := o.push.to;
        if rows[robot.row][robot.col] != Empty {
          MovedVacates(rows, robot, moves[0]);
        }
        assert In(o.rows, q);
        WalkEnclosed(o.rows, q, moves[1..]);
      } else {
        WalkEnclosed(o.rows, robot, moves[1..]);
      }
    }
  }

  /** An enclosed map with a robot on it always gets through its moves, with
      the same tokens and walls. */
  lemma RunRobotEnclosed(input: Input)
    requires Enclosed(input.warehouse, Wall)
    requires exists i, j :: 0 <= i < |input.warehouse| && 0 <= j < |input.warehouse[i]| && input.warehouse[i][j] == Robot
    ensures RunRobot(input).Some?
    ensures Cells(RunRobot(input).value) == Cells(input.warehouse)
  {
    FirstSound(input.warehouse, Robot);
    var p := First(input.warehouse, Robot).value;
    WalkEnclosed(input.warehouse, p, input.moves);
    WalkKeeps(input.warehouse, p, input.moves);
  }

  /** `move_robot` on boards: the robot is found with `find`, then each move
      pushes from its current cell. */
  method MoveRobot(input: Input) returns (r: Option<Board<Token>>)
    ensures r.None? <==> RunRobot(input).None?
    ensures r.Some? ==> r.value.rows == RunRobot(input).value
  {
    var board := new Board<Token>(input.warehouse);
    var found := board.Find(Robot);
    if found.None? {
      return None;
    }
    var robotPos := found.value;
    var k := 0;
    while k < |input.moves|
      invariant 0 <= k <= |input.moves|
      invariant RunRobot(input) == Walk(board.rows, robotPos, input.moves[k..])
    {
      assert input.moves[k..][0] == input.moves[k] && input.moves[k..][1..] == input.moves[k + 1..];
      var push := MoveObject(board, robotPos, input.moves[k]);
      if push.Panic? {
        return None;
      }
      if push.Moved? {
        robotPos := push.to;
      }
      k := k + 1;
    }
    return Some(board);
  }

  /** `solve`: move the robot, then add up the boxes' coordinates. */
  method Solve(input: Input) returns (r: Option<nat>)
    ensures r.None? <==> RunRobot(input).None?
    ensures r.Some? ==> r.value == Gps(RunRobot(input).value, Box)
  {
    var robotRun := MoveRobot(input);
    if robotRun.None? {
      return None;
    }
    var sum := SumUpCoordinates(robotRun.value, Box);
    return Some(sum);
  }

  // ---------------------------------------------------------------------------
  // The repository's own examples, transcribed cell by cell.

  /** One box in row 1, column 4 (the test's `#...O..`): its coordinate is 104. */
  lemma SumExample()
    ensures Gps([[Wall, Wall, Wall, Wall, Wall, Wall, Wall],
       [Wall, Empty, Empty, Empty, Box, Empty, Empty],
       [Wall, Empty, Empty, Empty, Empty, Empty, Empty]], Box) == 104
  {
  }

  /** `#.@....` with one move right: the robot takes the empty cell. */
  lemma SingleMoveExample()
    ensures RunRobot(Input([[Wall, Wall, Wall, Wall, Wall, Wall, Wall],
       [Wall, Empty, Empty, Empty, Box, Empty, Empty],
       [Wall, Empty, Robot, Empty, Empty, Empty, Empty]], [Right])) ==
      Some([[Wall, Wall, Wall, Wall, Wall, Wall, Wall],
       [Wall, Empty, Empty, Empty, Box, Empty, Empty],
       [Wall, Empty, Empty, Robot, Empty, Empty, Empty]])
  {
    var rows := [[Wall, Wall, Wall, Wall, Wall, Wall, Wall], [Wall, Empty, Empty, Empty, Box, Empty, Empty], [Wall, Empty, Robot, Empty, Empty, Empty, Empty]];
    var mid := [[Wall, Wall, Wall, Wall, Wall, Wall, Wall], [Wall, Empty, Empty, Empty, Box, Empty, Empty], [Wall, Empty, Robot, Robot, Empty, Empty, Empty]];
    assert rows[2][3 := Robot] == [Wall, Empty, Robot, Robot, Empty, Empty, Empty];
    assert Put(rows, Point2(2, 3), Robot) == mid;
    assert mid[2][2 := Empty] == [Wall, Empty, Empty, Robot, Empty, Empty, Empty];
    var final := [[Wall, Wall, Wall, Wall, Wall, Wall, Wall], [Wall, Empty, Empty, Empty, Box, Empty, Empty], [Wall, Empty, Empty, Robot, Empty, Empty, Empty]];
    assert Put(mid, Point2(2, 2), Empty) == final;
    assert Move(rows, Point2(2, 3), Right) == Outcome(rows, Moved(Point2(2, 3)));
    assert Move(rows, Point2(2, 2), Right) == Outcome(final, Moved(Point2(2, 3)));
    assert [Right][1..] == [];
    assert Walk(rows, Point2(2, 2), [Right]) == Walk(final, Point2(2, 3), []);
    FirstAt(rows, Robot, Point2(2, 2));
  }

  /** Right, up, then right again: the last move pushes the box one cell. */
  lemma PushingBoxExample()
    ensures RunRobot(Input([[Wall, Wall, Wall, Wall, Wall, Wall, Wall],
       [Wall, Empty, Empty, Empty, Box, Empty, Empty],
       [Wall, Empty, Robot, Empty, Empty, Empty, Empty]], [Right, Up, Right])) ==
      Some([[Wall, Wall, Wall, Wall, Wall, Wall, Wall],
       [Wall, Empty, Empty, Empty, Robot, Box, Empty],
       [Wall, Empty, Empty, Empty, Empty, Empty, Empty]])
  {
    var m1 := [[Wall, Wall, Wall, Wall, Wall, Wall, Wall], [Wall, Empty, Empty, Empty, Box, Empty, Empty], [Wall, Empty, Robot, Empty, Empty, Empty, Empty]];
    var m2 := [[Wall, Wall, Wall, Wall, Wall, Wall, Wall], [Wall, Empty, Empty, Empty, Box, Empty, Empty], [Wall, Empty, Robot, Robot, Empty, Empty, Empty]];
    assert m1[2][3 := Robot] == [Wall, Empty, Robot, Robot, Empty, Empty, Empty];
    assert Put(m1, Point2(2, 3), Robot) == m2;
    var m3 := [[Wall, Wall, Wall, Wall, Wall, Wall, Wall], [Wall, Empty, Empty, Empty, Box, Empty, Empty], [Wall, Empty, Empty, Robot, Empty, Empty, Empty]];
    assert m2[2][2 := Empty] == [Wall, Empty, Empty, Robot, Empty, Empty, Empty];
    assert Put(m2, Point2(2, 2), Empty) == m3;
    var m4 := [[Wall, Wall, Wall, Wall, Wall, Wall, Wall], [Wall, Empty, Empty, Robot, Box, Empty, Empty], [Wall, Empty, Empty, Robot, Empty, Empty, Empty]];
    assert m3[1][3 := Robot] == [Wall, Empty, Empty, Robot, Box, Empty, Empty];
    assert Put(m3, Point2(1, 3), Robot) == m4;
    var m5 := [[Wall, Wall, Wall, Wall, Wall, Wall, Wall], [Wall, Empty, Empty, Robot, Box, Empty, Empty], [Wall, Empty, Empty, Empty, Empty, Empty, Empty]];
    assert m4[2][3 := Empty] == [Wall, Empty, Empty, Empty, Empty, Empty, Empty];
    assert Put(m4, Point2(2, 3), Empty) == m5;
    var m6 := [[Wall, Wall, Wall, Wall, Wall, Wall, Wall], [Wall, Empty, Empty, Robot, Box, Box, Empty], [Wall, Empty, Empty, Empty, Empty, Empty, Empty]];
    assert m5[1][5 := Box] == [Wall, Empty, Empty, Robot, Box, Box, Empty];
    assert Put(m5, Point2(1, 5), Box) == m6;
    var m7 := [[Wall, Wall, Wall, Wall, Wall, Wall, Wall], [Wall, Empty, Empty, Robot, Empty, Box, Empty], [Wall, Empty, Empty, Empty, Empty, Empty, Empty]];
    assert m6[1][4 := Empty] == [Wall, Empty, Empty, Robot, Empty, Box, Empty];
    assert Put(m6, Point2(1, 4), Empty) == m7;
    var m8 := [[Wall, Wall, Wall, Wall, Wall, Wall, Wall], [Wall, Empty, Empty, Robot, Robot, Box, Empty], [Wall, Empty, Empty, Empty, Empty, Empty, Empty]];
    assert m7[1][4 := Robot] == [Wall, Empty, Empty, Robot, Robot, Box, Empty];
    assert Put(m7, Point2(1, 4), Robot) == m8;
    var m9 := [[Wall, Wall, Wall, Wall, Wall, Wall, Wall], [Wall, Empty, Empty, Empty, Robot, Box, Empty], [Wall, Empty, Empty, Empty, Empty, Empty, Empty]];
    assert m8[1][3 := Empty] == [Wall, Empty, Empty, Empty, Robot, Box, Empty];
    assert Put(m8, Point2(1, 3), Empty) == m9;
    assert Move(m1, Point2(2, 3), Right) == Outcome(m1, Moved(Point2(2, 3)));
    assert Move(m1, Point2(2, 2), Right) == Outcome(m3, Moved(Point2(2, 3)));
    assert Move(m3, Point2(1, 3), Up) == Outcome(m3, Moved(Point2(1, 3)));
    assert Move(m3, Point2(2, 3), Up) == Outcome(m5, Moved(Point2(1, 3)));
    assert Move(m5, Point2(1, 5), Right) == Outcome(m5, Moved(Point2(1, 5)));
    assert Move(m5, Point2(1, 4), Right) == Outcome(m7, Moved(Point2(1, 5)));
    assert Move(m5, Point2(1, 3), Right) == Outcome(m9, Moved(Point2(1, 4)));
    assert [Right, Up, Right][1..] == [Up, Right] && [Up, Right][1..] == [Right] && [Right][1..] == [];
    assert Walk(m1, Point2(2, 2), [Right, Up, Right]) == Walk(m9, Point2(1, 4), []);
    FirstAt(m1, Robot, Point2(2, 2));
  }
}

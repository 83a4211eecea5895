// The warehouse both parts of day 15 work on: a map of rows of cells, the
// robot's four directions, and the GPS score of the boxes on a map.
module Warehouse {
  import opened Wrappers
  import opened Board

  datatype Direction = Up | Down | Left | Right

  /** `cell_in_direction`: the neighbouring cell. `None` is the `usize`
      subtraction that underflows (a panic) when moving up from row 0 or left
      from column 0. */
  function CellInDirection(p: Point2, d: Direction): (r: Option<Point2>)
    ensures r.None? <==> (d == Up && p.row == 0) || (d == Left && p.col == 0)
    ensures r.Some? ==> Ahead(r.value, p, d) && r.value != p
    ensures r.Some? ==> r.value.row + r.value.col == p.row + p.col + 1 || r.value.row + r.value.col + 1 == p.row + p.col
  {
    match d
    case Up => if p.row == 0 then None else Some(Point2(p.row - 1, p.col))
    case Down => Some(Point2(p.row + 1, p.col))
    case Left => if p.col == 0 then None else Some(Point2(p.row, p.col - 1))
    case Right => Some(Point2(p.row, p.col + 1))
  }

  function Opposite(d: Direction): (r: Direction)
    ensures r != d
  {
    match d
    case Up => Down
    case Down => Up
    case Left => Right
    case Right => Left
  }

  /** A step never underflows going back, and going back returns to the start. */
  lemma StepBack(p: Point2, d: Direction)
    requires CellInDirection(p, d).Some?
    ensures CellInDirection(CellInDirection(p, d).value, Opposite(d)) == Some(p)
  {
  }

  // ---------------------------------------------------------------------------
  // Maps as rows of cells.

  /** `board[p]` does not panic. */
  predicate In<T>(rows: seq<seq<T>>, p: Point2)
  {
    p.row < |rows| && p.col < |rows[p.row]|
  }

  /** `board[p] = t`. */
  function Put<T>(rows: seq<seq<T>>, p: Point2, t: T): (r: seq<seq<T>>)
    requires In(rows, p)
    ensures SameShape(r, rows)
  {
    rows[p.row := rows[p.row][p.col := t]]
  }

  predicate SameShape<T, U>(a: seq<seq<T>>, b: seq<seq<U>>)
  {
    |a| == |b| && forall i :: 0 <= i < |a| ==> |a[i]| == |b[i]|
  }

  /** All the tokens on the map, counted with repetition. */
  function Cells<T>(rows: seq<seq<T>>): multiset<T>
  {
    if rows == [] then multiset{} else Cells(rows[..|rows| - 1]) + multiset(rows[|rows| - 1])
  }

  /** Writing a cell swaps one token of the count for another. */
  lemma {:induction false} CellsPut<T>(rows: seq<seq<T>>, p: Point2, t: T)
    requires In(rows, p)
    ensures Cells(Put(rows, p, t)) + multiset{rows[p.row][p.col]} == Cells(rows) + multiset{t}
  {
    var n := |rows| - 1;
    var put := Put(rows, p, t);
    assert put[..n] == if p.row == n then rows[..n] else Put(rows[..n], p, t);
    if p.row == n {
      var row := rows[n];
      assert multiset(row[p.col := t]) + multiset{row[p.col]} == multiset(row) + multiset{t};
    } else {
      CellsPut(rows[..n], p, t);
      assert put[n] == rows[n];
      assert rows[..n][p.row][p.col] == rows[p.row][p.col];
      var x := multiset{rows[p.row][p.col]};
      calc {
        Cells(put) + x;
        Cells(put[..n]) + multiset(put[n]) + x;
        (Cells(Put(rows[..n], p, t)) + x) + multiset(rows[n]);
        Cells(rows[..n]) + multiset{t} + multiset(rows[n]);
        Cells(rows) + multiset{t};
      }
    }
  }

  lemma MultisetCancel<T>(a: multiset<T>, b: multiset<T>, c: T)
    requires a + multiset{c} == b + multiset{c}
    ensures a == b
  {
    assert forall x :: a[x] == (a + multiset{c})[x] - multiset{c}[x];
    assert forall x :: b[x] == (b + multiset{c})[x] - multiset{c}[x];
  }

  /** Cell `c` lies on the ray that starts at `p` and runs in direction `d`. */
  predicate Ahead(c: Point2, p: Point2, d: Direction)
  {
    match d
    case Up => c.col == p.col && c.row <= p.row
    case Down => c.col == p.col && c.row >= p.row
    case Left => c.row == p.row && c.col <= p.col
    case Right => c.row == p.row && c.col >= p.col
  }

  /** Outside the ray from `p` along `d` the two maps agree. */
  predicate SameOffRay<T(==)>(a: seq<seq<T>>, b: seq<seq<T>>, p: Point2, d: Direction)
    requires SameShape(a, b)
  {
    forall i, j :: 0 <= i < |a| && 0 <= j < |a[i]| && !Ahead(Point2(i, j), p, d) ==> a[i][j] == b[i][j]
  }

  /** Both maps have walls on exactly the same cells. */
  predicate SameWalls<T(==)>(a: seq<seq<T>>, b: seq<seq<T>>, wall: T)
  {
    SameShape(a, b) &&
    forall i, j :: 0 <= i < |a| && 0 <= j < |a[i]| ==> (a[i][j] == wall <==> b[i][j] == wall)
  }

  /** A rectangular map whose outermost cells are all walls, as every puzzle
      map is. */
  predicate Enclosed<T(==)>(rows: seq<seq<T>>, wall: T)
  {
    |rows| > 0 &&
    (forall i :: 0 <= i < |rows| ==> |rows[i]| == |rows[0]|) &&
    forall i, j :: 0 <= i < |rows| && 0 <= j < |rows[i]| && (i == 0 || i == |rows| - 1 || j == 0 || j == |rows[0]| - 1) ==>
      rows[i][j] == wall
  }

  /** A cell of an enclosed map that is not a wall has a neighbour on the map
      in every direction. */
  lemma Interior<T>(rows: seq<seq<T>>, wall: T, p: Point2, d: Direction)
    requires Enclosed(rows, wall) && In(rows, p) && rows[p.row][p.col] != wall
    ensures CellInDirection(p, d).Some? && In(rows, CellInDirection(p, d).value)
  {
    assert p.row != 0 && p.row != |rows| - 1 && p.col != 0 && p.col != |rows[0]| - 1;
  }

  /** How far `p` is from the map's edge in direction `d`. */
  function Distance<T>(rows: seq<seq<T>>, p: Point2, d: Direction): nat
  {
    match d
    case Up => p.row
    case Left => p.col
    case Down => if p.row < |rows| then |rows| - p.row else 0
    case Right => if In(rows, p) then |rows[p.row]| - p.col else 0
  }

  /** What `move_object` reports: a panic (an index off the map or an
      underflow), `None` (blocked) or `Some(new_pos)`. */
  datatype Push = Panic | Stuck | Moved(to: Point2)

  datatype Outcome<T> = Outcome(rows: seq<seq<T>>, push: Push)

  /** Writing two cells on the ray keeps the cells off it. */
  lemma PutOffRay<T>(a: seq<seq<T>>, b: seq<seq<T>>, p: Point2, q: Point2, d: Direction, x: T, y: T)
    requires SameShape(a, b) && In(a, p) && In(a, q) && CellInDirection(p, d) == Some(q)
    requires SameOffRay(a, b, q, d)
    ensures SameOffRay(Put(Put(a, q, x), p, y), b, p, d)
  {
  }

  lemma SameWallsEnclosed<T>(a: seq<seq<T>>, b: seq<seq<T>>, wall: T)
    requires SameWalls(a, b, wall) && Enclosed(a, wall)
    ensures Enclosed(b, wall)
  {
    assert |b[0]| == |a[0]|;
  }

  lemma SameWallsTrans<T>(a: seq<seq<T>>, b: seq<seq<T>>, c: seq<seq<T>>, wall: T)
    requires SameWalls(a, b, wall) && SameWalls(b, c, wall)
    ensures SameWalls(a, c, wall)
  {
  }

  // ---------------------------------------------------------------------------
  // Scoring.

  /** The GPS coordinate of a box: 100 times its row plus its column. */
  function Coordinate(i: nat, j: nat): nat
  {
    100 * i + j
  }

  /** The GPS coordinates of the boxes in row `i` from column `j` on. */
  function RowGps<T(==)>(row: seq<T>, box: T, i: nat, j: nat): nat
    decreases |row| - j
  {
    if j >= |row| then 0
    else (if row[j] == box then Coordinate(i, j) else 0) + RowGps(row, box, i, j + 1)
  }

  /** The GPS coordinates of the boxes from row `i` down. */
  function GpsFrom<T(==)>(rows: seq<seq<T>>, box: T, i: nat): nat
    decreases |rows| - i
  {
    if i >= |rows| then 0 else RowGps(rows[i], box, i, 0) + GpsFrom(rows, box, i + 1)
  }

  /** The sum of the GPS coordinates of all boxes. */
  function Gps<T(==)>(rows: seq<seq<T>>, box: T): nat
  {
    GpsFrom(rows, box, 0)
  }

  /** Putting a box on a cell without one adds exactly that cell's coordinate. */
  lemma {:induction false} RowGpsPut<T>(row: seq<T>, box: T, i: nat, j: nat, k: nat)
    requires j < |row| && row[j] != box
    ensures RowGps(row[j := box], box, i, k) == RowGps(row, box, i, k) + (if k <= j then Coordinate(i, j) else 0)
    decreases |row| - k
  {
    if k < |row| {
      RowGpsPut(row, box, i, j, k + 1);
    }
  }

  lemma {:induction false} GpsFromPut<T>(rows: seq<seq<T>>, box: T, p: Point2, i: nat)
    requires In(rows, p) && rows[p.row][p.col] != box
    ensures GpsFrom(Put(rows, p, box), box, i) == GpsFrom(rows, box, i) + (if i <= p.row then Coordinate(p.row, p.col) else 0)
    decreases |rows| - i
  {
    if i < |rows| {
      GpsFromPut(rows, box, p, i + 1);
      if i == p.row {
        RowGpsPut(rows[i], box, i, p.col, 0);
      }
    }
  }

  /** Each box counts its own coordinate: a new box adds exactly that. */
  lemma GpsPutBox<T>(rows: seq<seq<T>>, box: T, p: Point2)
    requires In(rows, p) && rows[p.row][p.col] != box
    ensures Gps(Put(rows, p, box), box) == Gps(rows, box) + Coordinate(p.row, p.col)
  {
    GpsFromPut(rows, box, p, 0);
  }

  /** `sum_up_coordinates`: every cell holding `box` adds its coordinate. */
  method SumUpCoordinates<T(==)>(board: Board<T>, box: T) returns (sum: nat)
    ensures sum == Gps(board.rows, box)
  {
    sum := 0;
    var i := 0;
    while i < |board.rows|
      invariant 0 <= i <= |board.rows|
      invariant sum + GpsFrom(board.rows, box, i) == Gps(board.rows, box)
    {
      var row := board.rows[i];
      var j := 0;
      while j < |row|
        invariant 0 <= j <= |row|
        invariant sum + RowGps(row, box, i, j) + GpsFrom(board.rows, box, i + 1) == Gps(board.rows, box)
      {
        if row[j] == box {
          sum := sum + Coordinate(i, j);
        }
        j := j + 1;
      }
      i := i + 1;
    }
  }
}

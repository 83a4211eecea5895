// Day 8: antennas on a grid. Every character other than '.' and ' ' is an
// antenna of that frequency. Part one puts an antinode beyond each antenna of
// a same-frequency pair, at the distance between them; part two marks every
// grid position on the line through the pair, stepping by the pair's offset
// reduced by the gcd of its coordinates.
module Day08 {
  import opened Grid

  datatype Point = Point(row: int, col: int)

  function Plus(p: Point, q: Point): Point
  {
    Point(p.row + q.row, p.col + q.col)
  }

  function Minus(p: Point, q: Point): Point
  {
    Point(p.row - q.row, p.col - q.col)
  }

  predicate Inside(g: Grid<char>, p: Point)
  {
    g.InBounds(p.row, p.col)
  }

  // ---------------------------------------------------------------- antennas

  predicate IsAntenna(ch: char)
  {
    ch != '.' && ch != ' '
  }

  /** The positions of the cells holding `ch`, in the order of `cells`. */
  function PositionsOf(cells: seq<(int, int, char)>, ch: char): (ps: seq<Point>)
    ensures forall p :: p in ps <==> exists k :: 0 <= k < |cells| && cells[k] == (p.row, p.col, ch)
  {
    if cells == [] then []
    else
      var init := PositionsOf(cells[..|cells| - 1], ch);
      var last := cells[|cells| - 1];
      assert forall k :: 0 <= k < |cells| - 1 ==> cells[..|cells| - 1][k] == cells[k];
      if last.2 == ch then init + [Point(last.0, last.1)] else init
  }

  /** `find_antennas`: every antenna character maps to the positions holding
      it, in row-major order; no other character has an entry. */
  method FindAntennas(g: Grid<char>) returns (m: map<char, seq<Point>>)
    requires g.Valid()
    ensures forall ch :: ch in m <==> IsAntenna(ch) && PositionsOf(g.Cells(), ch) != []
    ensures forall ch :: ch in m ==> m[ch] == PositionsOf(g.Cells(), ch)
  {
    var cells := g.Cells();
    m := map[];
    for i := 0 to |cells|
      invariant forall ch :: ch in m <==> IsAntenna(ch) && PositionsOf(cells[..i], ch) != []
      invariant forall ch :: ch in m ==> m[ch] == PositionsOf(cells[..i], ch)
    {
      assert cells[..i + 1][..i] == cells[..i];
      var (row, col, ch) := cells[i];
      if IsAntenna(ch) {
        var before := if ch in m then m[ch] else [];
        m := m[ch := before + [Point(row, col)]];
      }
    }
    assert cells[..|cells|] == cells;
  }

  /** A position is listed for `ch` exactly when it is inside the grid and
      holds `ch`. */
  lemma AntennaPositions(g: Grid<char>, ch: char, p: Point)
    requires g.Valid()
    ensures p in PositionsOf(g.Cells(), ch) <==> Inside(g, p) && g.data[p.row][p.col] == ch
  {
    var cells := g.Cells();
    if p in PositionsOf(cells, ch) {
      var k :| 0 <= k < |cells| && cells[k] == (p.row, p.col, ch);
      CellsInside(g, k);
    }
    if Inside(g, p) && g.data[p.row][p.col] == ch {
      CellsRowMajor(g, p.row, p.col);
      assert cells[p.row * g.width + p.col] == (p.row, p.col, ch);
    }
  }

  // ---------------------------------------------------------------- part one

  /** `antinodes_for_antennas`: one point beyond each antenna, as far from it
      as the antennas are from each other. */
  function AntinodesFor(p1: Point, p2: Point): (r: seq<Point>)
    ensures |r| == 2
  {
    [Plus(p2, Minus(p2, p1)), Plus(p1, Minus(p1, p2))]
  }

  /** Each antinode is in line with both antennas and twice as far from one
      of them as from the other (the puzzle's definition of an antinode). */
  lemma AntinodesTwiceAsFar(p1: Point, p2: Point)
    ensures var r := AntinodesFor(p1, p2);
      Minus(r[0], p1) == Plus(Minus(r[0], p2), Minus(r[0], p2)) &&
      Minus(r[1], p2) == Plus(Minus(r[1], p1), Minus(r[1], p1))
  {
  }

  /** Swapping the antennas gives the same two antinodes. */
  lemma AntinodesSymmetric(p1: Point, p2: Point)
    ensures AntinodesFor(p2, p1) == [AntinodesFor(p1, p2)[1], AntinodesFor(p1, p2)[0]]
  {
  }

  /** p is an antinode of some pair i < j of the positions. */
  ghost predicate PairAntinode(ps: seq<Point>, p: Point)
  {
    exists i, j :: 0 <= i < j < |ps| && p in AntinodesFor(ps[i], ps[j])
  }

  /** The loop `for antinode in ...`: the points that are inside the grid are
      added to the set. */
  method AddInside(g: Grid<char>, s0: set<Point>, points: seq<Point>) returns (s: set<Point>)
    ensures forall p :: p in s <==> p in s0 || (p in points && Inside(g, p))
  {
    s := s0;
    for k := 0 to |points|
      invariant forall p :: p in s <==> p in s0 || (p in points[..k] && Inside(g, p))
    {
      assert points[..k + 1] == points[..k] + [points[k]];
      if Inside(g, points[k]) {
        s := s + {points[k]};
      }
    }
    assert points[..|points|] == points;
  }

  /** The pair loops of part one for one frequency. */
  method FrequencyAntinodes(g: Grid<char>, ps: seq<Point>) returns (s: set<Point>)
    ensures forall p :: p in s <==> Inside(g, p) && PairAntinode(ps, p)
  {
    s := {};
    for i := 0 to |ps|
      invariant forall p :: p in s <==> Inside(g, p) && exists a, b :: 0 <= a < i && a < b < |ps| && p in AntinodesFor(ps[a], ps[b])
    {
      var s0 := s;
      for j := i + 1 to |ps|
        invariant forall p :: p in s <==> p in s0 || (Inside(g, p) && exists b :: i < b < j && p in AntinodesFor(ps[i], ps[b]))
      {
        s := AddInside(g, s, AntinodesFor(ps[i], ps[j]));
      }
    }
  }

  /** p is a part-one antinode of the grid. */
  ghost predicate Antinode(g: Grid<char>, p: Point)
    requires g.Valid()
  {
    Inside(g, p) && exists ch :: IsAntenna(ch) && PairAntinode(PositionsOf(g.Cells(), ch), p)
  }

  /** `ex1::find_antinodes_for_grid`: the frequencies are visited in the
      map's own order, which the result does not depend on. */
  method FindAntinodes(g: Grid<char>) returns (s: set<Point>)
    requires g.Valid()
    ensures forall p :: p in s <==> Antinode(g, p)
  {
    var m := FindAntennas(g);
    var keys := m.Keys;
    s := {};
    while keys != {}
      invariant keys <= m.Keys
      invariant forall p :: p in s <==> Inside(g, p) && exists ch :: ch in m && ch !in keys && PairAntinode(m[ch], p)
      decreases keys
    {
      var ch :| ch in keys;
      var t := FrequencyAntinodes(g, m[ch]);
      s := s + t;
      keys := keys - {ch};
    }
    forall p ensures p in s <==> Antinode(g, p) {
      if Antinode(g, p) {
        var ch :| IsAntenna(ch) && PairAntinode(PositionsOf(g.Cells(), ch), p);
        assert ch in m;
      }
    }
  }

  // ---------------------------------------------------------------- gcd

  function Abs(x: int): nat
  {
    if x < 0 then -x else x
  }

  function Mul(a: int, b: int): int
  {
    a * b
  }

  /** d divides x: x is d times some integer. */
  ghost predicate Divides(d: int, x: int)
  {
    exists k :: Mul(d, k) == x
  }

  /** Euclid's algorithm on the absolute values. */
  function GcdOf(a: nat, b: nat): nat
    decreases b
  {
    if b == 0 then a else GcdOf(b, a % b)
  }

  lemma {:induction false} GcdOfDivides(a: nat, b: nat)
    ensures Divides(GcdOf(a, b), a) && Divides(GcdOf(a, b), b)
    decreases b
  {
    if b == 0 {
      assert Mul(a, 1) == a && Mul(a, 0) == 0;
    } else {
      GcdOfDivides(b, a % b);
      var g := GcdOf(b, a % b);
      var kb :| Mul(g, kb) == b;
      var kr :| Mul(g, kr) == a % b;
      assert a == (a / b) * b + a % b;
      assert a == g * ((a / b) * kb + kr) by {
        assert (a / b) * b == g * ((a / b) * kb);
      }
      assert Mul(g, (a / b) * kb + kr) == a;
    }
  }

  lemma {:induction false} GcdOfGreatest(a: nat, b: nat, c: int)
    requires Divides(c, a) && Divides(c, b)
    ensures Divides(c, GcdOf(a, b))
    decreases b
  {
    if b != 0 {
      var ka :| Mul(c, ka) == a;
      var kb :| Mul(c, kb) == b;
      assert a % b == a - (a / b) * b;
      assert a % b == c * (ka - (a / b) * kb) by {
        assert (a / b) * b == c * ((a / b) * kb);
      }
      assert Mul(c, ka - (a / b) * kb) == a % b;
      GcdOfGreatest(b, a % b, c);
    }
  }

  lemma {:induction false} GcdOfZero(a: nat, b: nat)
    ensures GcdOf(a, b) == 0 <==> a == 0 && b == 0
    decreases b
  {
    if b != 0 {
      GcdOfZero(b, a % b);
    }
  }

  /** Divisibility ignores signs. */
  lemma DividesAbs(d: int, x: int)
    ensures Divides(d, Abs(x)) <==> Divides(d, x)
  {
    if Divides(d, Abs(x)) {
      var k :| Mul(d, k) == Abs(x);
      assert Mul(d, -k) == -Mul(d, k);
    }
    if Divides(d, x) {
      var k :| Mul(d, k) == x;
      assert Mul(d, -k) == -Mul(d, k);
    }
  }

  /** `ex2::gcd`: the non-negative greatest common divisor; `gcd(0, 0)` is 0. */
  method Gcd(a: int, b: int) returns (r: int)
    ensures r >= 0 && r == GcdOf(Abs(a), Abs(b))
    ensures Divides(r, a) && Divides(r, b)
    ensures forall c :: Divides(c, a) && Divides(c, b) ==> Divides(c, r)
    ensures r == 0 <==> a == 0 && b == 0
  {
    var x, y := Abs(a), Abs(b);
    while y != 0
      invariant GcdOf(x, y) == GcdOf(Abs(a), Abs(b))
      decreases y
    {
      var temp := y;
      y := x % y;
      x := temp;
    }
    r := x;
    GcdOfDivides(Abs(a), Abs(b));
    DividesAbs(r, a);
    DividesAbs(r, b);
    forall c | Divides(c, a) && Divides(c, b) ensures Divides(c, r) {
      DividesAbs(c, a);
      DividesAbs(c, b);
      GcdOfGreatest(Abs(a), Abs(b), c);
    }
    GcdOfZero(Abs(a), Abs(b));
  }

  // ---------------------------------------------------------------- part two

  /** Rust's `/` on `isize`, which truncates toward zero. */
  function Quot(a: int, b: int): int
    requires b > 0
  {
    if a >= 0 then a / b else -((-a) / b)
  }

  lemma DivOfMultiple(b: int, k: int)
    requires b > 0
    ensures (b * k) / b == k
  {
    var q, r := (b * k) / b, (b * k) % b;
    assert b * (k - q) == r;
    if k - q >= 1 {
      MulMonotone(1, k - q, b);
    } else if k - q <= -1 {
      MulMonotone(k - q, -1, b);
    }
  }

  lemma QuotExact(a: int, b: int, k: int)
    requires b > 0 && Mul(b, k) == Abs(a)
    ensures Quot(a, b) * b == a
  {
    DivOfMultiple(b, k);
  }

  /** The pair's offset divided by the gcd of its coordinates. */
  function Step(p1: Point, p2: Point): (s: Point)
    requires p1 != p2
  {
    var dx := p2.col - p1.col;
    var dy := p2.row - p1.row;
    GcdOfZero(Abs(dx), Abs(dy));
    var g := GcdOf(Abs(dx), Abs(dy));
    Point(Quot(dy, g), Quot(dx, g))
  }

  /** The point k steps of s away from p (k may be negative). */
  function At(p: Point, s: Point, k: int): Point
  {
    Point(p.row + k * s.row, p.col + k * s.col)
  }

  ghost predicate OnLine(p: Point, s: Point, q: Point)
  {
    exists k :: q == At(p, s, k)
  }

  /** gcd steps of the reduced offset lead from the first antenna to the
      second, and the step is not zero. */
  lemma StepReaches(p1: Point, p2: Point)
    requires p1 != p2
    ensures At(p1, Step(p1, p2), GcdOf(Abs(p2.col - p1.col), Abs(p2.row - p1.row))) == p2
    ensures Step(p1, p2) != Point(0, 0)
  {
    var dx := p2.col - p1.col;
    var dy := p2.row - p1.row;
    var g := GcdOf(Abs(dx), Abs(dy));
    GcdOfZero(Abs(dx), Abs(dy));
    GcdOfDivides(Abs(dx), Abs(dy));
    var kx :| Mul(g, kx) == Abs(dx);
    var ky :| Mul(g, ky) == Abs(dy);
    QuotExact(dx, g, kx);
    QuotExact(dy, g, ky);
    var s := Step(p1, p2);
    assert s.row * g == dy && s.col * g == dx;
    assert g * s.row == dy && g * s.col == dx;
  }

  /** Every point of the line is in line with both antennas: the cross
      product of its offset with the pair's offset is zero. */
  lemma OnLineCollinear(p1: Point, p2: Point, k: int)
    requires p1 != p2
    ensures var q := At(p1, Step(p1, p2), k);
      (q.row - p1.row) * (p2.col - p1.col) == (q.col - p1.col) * (p2.row - p1.row)
  {
    StepReaches(p1, p2);
    var s := Step(p1, p2);
    var g := GcdOf(Abs(p2.col - p1.col), Abs(p2.row - p1.row));
    var q := At(p1, s, k);
    assert q.row - p1.row == k * s.row && q.col - p1.col == k * s.col;
    assert p2.col - p1.col == g * s.col && p2.row - p1.row == g * s.row;
    Rearrange(k, g, s.row, s.col);
  }

  lemma Rearrange(k: int, g: int, a: int, b: int)
    ensures (k * a) * (g * b) == (k * b) * (g * a)
  {
    assert (k * a) * (g * b) == k * g * a * b;
    assert (k * b) * (g * a) == k * g * a * b;
  }

  lemma MulMonotone(x: int, y: int, s: int)
    requires x <= y
    ensures s >= 0 ==> x * s <= y * s
    ensures s <= 0 ==> x * s >= y * s
  {
    assert y * s - x * s == (y - x) * s;
  }

  /** The grid is convex: between two inside points of a line, every point
      of the line is inside. */
  lemma Convex(g: Grid<char>, p: Point, s: Point, a: int, b: int, c: int)
    requires a <= b <= c && Inside(g, At(p, s, a)) && Inside(g, At(p, s, c))
    ensures Inside(g, At(p, s, b))
  {
    MulMonotone(a, b, s.row);
    MulMonotone(b, c, s.row);
    MulMonotone(a, b, s.col);
    MulMonotone(b, c, s.col);
  }

  /** Steps left before a walk in direction d leaves the grid. */
  function Room(g: Grid<char>, p: Point, d: Point): int
  {
    if d.row > 0 then g.height - p.row
    else if d.row < 0 then p.row
    else if d.col > 0 then g.width - p.col
    else p.col
  }

  /** One of the two `while` loops of `points_on_line`: push the current
      point and step by d until the point leaves the grid. */
  method Walk(g: Grid<char>, start: Point, d: Point) returns (points: seq<Point>)
    requires d != Point(0, 0)
    ensures forall i :: 0 <= i < |points| ==> points[i] == At(start, d, i) && Inside(g, points[i])
    ensures !Inside(g, At(start, d, |points|))
  {
    points := [];
    var current := start;
    while Inside(g, current)
      invariant current == At(start, d, |points|)
      invariant forall i :: 0 <= i < |points| ==> points[i] == At(start, d, i) && Inside(g, points[i])
      decreases Room(g, current, d)
    {
      points := points + [current];
      current := Point(current.row + d.row, current.col + d.col);
    }
  }

  lemma AtBackward(p: Point, s: Point, i: int)
    ensures At(p, Point(-s.row, -s.col), i) == At(p, s, -i)
  {
  }

  lemma AtForward(p: Point, s: Point, i: int)
    ensures At(Point(p.row + s.row, p.col + s.col), s, i) == At(p, s, i + 1)
  {
  }

  /** `ex2::points_on_line`: from the first antenna, every grid point
      reached by stepping backwards, then every one reached stepping
      forwards. */
  method PointsOnLine(p1: Point, p2: Point, g: Grid<char>) returns (points: seq<Point>)
    ensures p1 == p2 ==> points == [p1]
    ensures p1 != p2 ==> forall i :: 0 <= i < |points| ==> Inside(g, points[i]) && OnLine(p1, Step(p1, p2), points[i])
    ensures p1 != p2 && Inside(g, p1) ==> forall k :: Inside(g, At(p1, Step(p1, p2), k)) ==> At(p1, Step(p1, p2), k) in points
  {
    var dx := p2.col - p1.col;
    var dy := p2.row - p1.row;
    if dx == 0 && dy == 0 {
      return [p1];
    }
    var d := Gcd(dx, dy);
    var step := Point(Quot(dy, d), Quot(dx, d));
    assert step == Step(p1, p2);
    StepReaches(p1, p2);
    var back := Walk(g, p1, Point(-step.row, -step.col));
    var ahead := Walk(g, Point(p1.row + step.row, p1.col + step.col), step);
    points := back + ahead;
    LineCovered(g, p1, step, back, ahead);
  }

  lemma LineCovered(g: Grid<char>, p1: Point, step: Point, back: seq<Point>, ahead: seq<Point>)
    requires forall i :: 0 <= i < |back| ==> back[i] == At(p1, Point(-step.row, -step.col), i) && Inside(g, back[i])
    requires !Inside(g, At(p1, Point(-step.row, -step.col), |back|))
    requires forall i :: 0 <= i < |ahead| ==> ahead[i] == At(Point(p1.row + step.row, p1.col + step.col), step, i) && Inside(g, ahead[i])
    requires !Inside(g, At(Point(p1.row + step.row, p1.col + step.col), step, |ahead|))
    ensures forall i :: 0 <= i < |back + ahead| ==> Inside(g, (back + ahead)[i]) && OnLine(p1, step, (back + ahead)[i])
    ensures Inside(g, p1) ==> forall k :: Inside(g, At(p1, step, k)) ==> At(p1, step, k) in back + ahead
  {
    var points := back + ahead;
    forall i | 0 <= i < |points| ensures Inside(g, points[i]) && OnLine(p1, step, points[i]) {
      if i < |back| {
        AtBackward(p1, step, i);
        assert points[i] == At(p1, step, -i);
      } else {
        AtForward(p1, step, i - |back|);
        assert points[i] == At(p1, step, i - |back| + 1);
      }
    }
    if Inside(g, p1) {
      AtBackward(p1, step, |back|);
      AtForward(p1, step, |ahead|);
      assert At(p1, step, 0) == p1;
      forall k | Inside(g, At(p1, step, k)) ensures At(p1, step, k) in points {
        if k <= 0 {
          if -k >= |back| {
            Convex(g, p1, step, k, -|back|, 0);
          }
          AtBackward(p1, step, -k);
          assert points[-k] == At(p1, step, k);
        } else {
          if k - 1 >= |ahead| {
            Convex(g, p1, step, 0, |ahead| + 1, k);
          }
          AtForward(p1, step, k - 1);
          assert points[|back| + k - 1] == At(p1, step, k);
        }
      }
    }
  }

  /** p is on the line `points_on_line` walks for the pair (a, b). */
  ghost predicate OnPairLine(a: Point, b: Point, p: Point)
  {
    if a == b then p == a else OnLine(a, Step(a, b), p)
  }

  /** The points `points_on_line` returns that are inside the grid are
      exactly the inside points of the pair's line, when the first antenna is
      itself inside. */
  lemma LineSet(g: Grid<char>, a: Point, b: Point, pts: seq<Point>)
    requires Inside(g, a)
    requires a == b ==> pts == [a]
    requires a != b ==> forall i :: 0 <= i < |pts| ==> Inside(g, pts[i]) && OnLine(a, Step(a, b), pts[i])
    requires a != b ==> forall k :: Inside(g, At(a, Step(a, b), k)) ==> At(a, Step(a, b), k) in pts
    ensures forall p :: p in pts && Inside(g, p) <==> Inside(g, p) && OnPairLine(a, b, p)
  {
    if a != b {
      forall p | Inside(g, p) && OnPairLine(a, b, p) ensures p in pts {
        var k :| p == At(a, Step(a, b), k);
      }
    }
  }

  /** p is on the line of some pair i < j of the positions. */
  ghost predicate PairLine(ps: seq<Point>, p: Point)
  {
    exists i, j :: 0 <= i < j < |ps| && OnPairLine(ps[i], ps[j], p)
  }

  /** The pair loops of part two for one frequency. */
  method FrequencyLinePoints(g: Grid<char>, ps: seq<Point>) returns (s: set<Point>)
    requires forall i :: 0 <= i < |ps| ==> Inside(g, ps[i])
    ensures forall p :: p in s <==> Inside(g, p) && PairLine(ps, p)
  {
    s := {};
    for i := 0 to |ps|
      invariant forall p :: p in s <==> Inside(g, p) && exists a, b :: 0 <= a < i && a < b < |ps| && OnPairLine(ps[a], ps[b], p)
    {
      s := AddRowLines(g, s, ps, i);
    }
  }

  /** The inner pair loop of part two: antenna i paired with each later one. */
  method AddRowLines(g: Grid<char>, s0: set<Point>, ps: seq<Point>, i: nat) returns (s: set<Point>)
    requires i < |ps| && Inside(g, ps[i])
    ensures forall p :: p in s <==> p in s0 || (Inside(g, p) && exists b :: i < b < |ps| && OnPairLine(ps[i], ps[b], p))
  {
    s := s0;
    for j := i + 1 to |ps|
      invariant forall p :: p in s <==> p in s0 || (Inside(g, p) && exists b :: i < b < j && OnPairLine(ps[i], ps[b], p))
    {
      s := AddPairLine(g, s, ps[i], ps[j]);
    }
  }

  /** The body of the pair loop of part two: the inside points of the
      pair's line are added. */
  method AddPairLine(g: Grid<char>, s0: set<Point>, a: Point, b: Point) returns (s: set<Point>)
    requires Inside(g, a)
    ensures forall p :: p in s <==> p in s0 || (Inside(g, p) && OnPairLine(a, b, p))
  {
    var pts := PointsOnLine(a, b, g);
    LineSet(g, a, b, pts);
    s := AddInside(g, s0, pts);
  }

  /** p is a part-two antinode of the grid. */
  ghost predicate LineAntinode(g: Grid<char>, p: Point)
    requires g.Valid()
  {
    Inside(g, p) && exists ch :: IsAntenna(ch) && PairLine(PositionsOf(g.Cells(), ch), p)
  }

  /** `ex2::find_antinodes_for_grid` (its own copy of `find_antennas` is the
      same code as the one above). */
  method FindLineAntinodes(g: Grid<char>) returns (s: set<Point>)
    requires g.Valid()
    ensures forall p :: p in s <==> LineAntinode(g, p)
  {
    var m := FindAntennas(g);
    var keys := m.Keys;
    s := {};
    while keys != {}
      invariant keys <= m.Keys
      invariant forall p :: p in s <==> Inside(g, p) && exists ch :: ch in m && ch !in keys && PairLine(m[ch], p)
      decreases keys
    {
      var ch :| ch in keys;
      forall i | 0 <= i < |m[ch]| ensures Inside(g, m[ch][i]) {
        AntennaPositions(g, ch, m[ch][i]);
      }
      var t := FrequencyLinePoints(g, m[ch]);
      s := s + t;
      keys := keys - {ch};
    }
    forall p ensures p in s <==> LineAntinode(g, p) {
      if LineAntinode(g, p) {
        var ch :| IsAntenna(ch) && PairLine(PositionsOf(g.Cells(), ch), p);
        assert ch in m;
      }
    }
  }

  /** Both antennas of a pair are on its line. */
  lemma PairEndsOnLine(a: Point, b: Point)
    ensures OnPairLine(a, b, a) && OnPairLine(a, b, b)
  {
    if a != b {
      assert At(a, Step(a, b), 0) == a;
      StepReaches(a, b);
    }
  }

  /** The part-one antinodes of a pair lie on its part-two line. */
  lemma AntinodesOnLine(p1: Point, p2: Point)
    ensures forall q :: q in AntinodesFor(p1, p2) ==> OnPairLine(p1, p2, q)
  {
    if p1 != p2 {
      StepReaches(p1, p2);
      var s := Step(p1, p2);
      var g := GcdOf(Abs(p2.col - p1.col), Abs(p2.row - p1.row));
      AntinodesAt(p1, p2, s, g);
      var r := AntinodesFor(p1, p2);
      assert OnLine(p1, s, r[0]) && OnLine(p1, s, r[1]);
    }
  }

  lemma AntinodesAt(p1: Point, p2: Point, s: Point, g: int)
    requires p2 == At(p1, s, g)
    ensures AntinodesFor(p1, p2)[0] == At(p1, s, 2 * g)
    ensures AntinodesFor(p1, p2)[1] == At(p1, s, -g)
  {
    assert (2 * g) * s.row == 2 * (g * s.row) && (2 * g) * s.col == 2 * (g * s.col);
    assert (-g) * s.row == -(g * s.row) && (-g) * s.col == -(g * s.col);
  }

  /** Every part-one antinode is a part-two antinode. */
  lemma PartOneInPartTwo(g: Grid<char>, p: Point)
    requires g.Valid() && Antinode(g, p)
    ensures LineAntinode(g, p)
  {
    var ch :| IsAntenna(ch) && PairAntinode(PositionsOf(g.Cells(), ch), p);
    var ps := PositionsOf(g.Cells(), ch);
    var i, j :| 0 <= i < j < |ps| && p in AntinodesFor(ps[i], ps[j]);
    AntinodesOnLine(ps[i], ps[j]);
  }
}

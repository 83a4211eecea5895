// Day 14 (TypeScript), part one: robots walk on a torus-shaped board with a
// constant velocity; after 100 seconds the safety score is the product of the
// number of robots in each of the four quadrants, robots on the middle row or
// column not counting.
module Day14 {
  import opened Wrappers
  import opened Text

  datatype Vec2 = Vec2(x: int, y: int)

  /** `RobotState`. */
  datatype Robot = Robot(position: Vec2, velocity: Vec2)

  // ---------------------------------------------------------------- parsing

  /** The length of the run of digits that starts `t`. */
  function DigitRun(t: string): (n: nat)
    ensures n <= |t| && AllDigits(t[..n])
    ensures n < |t| ==> !IsDigit(t[n])
  {
    if t != [] && IsDigit(t[0]) then
      var n := 1 + DigitRun(t[1..]);
      assert t[..n] == [t[0]] + t[1..][..n - 1];
      n
    else 0
  }

  /** The group `(-?\d+)` at the start of `t`, read by `Number`: the value and
      the text after it. The digits are taken greedily. */
  function MatchInt(t: string): (r: Option<(int, string)>)
    ensures r.Some? ==> |r.value.1| < |t|
  {
    var neg := t != [] && t[0] == '-';
    var d := if neg then t[1..] else t;
    var n := DigitRun(d);
    if n == 0 then None
    else
      var v := DigitsValue(d[..n]) as int;
      Some((if neg then -v else v, d[n..]))
  }

  /** `t` starts with `lit`; the rest of `t` after it. */
  function MatchLit(t: string, lit: string): (r: Option<string>)
    ensures r.Some? ==> t == lit + r.value
  {
    if |lit| <= |t| && t[..|lit|] == lit then Some(t[|lit|..]) else None
  }

  /** The pattern `p=(-?\d+),(-?\d+) v=(-?\d+),(-?\d+)` matched at the
      start of `t`. */
  function MatchAt(t: string): (r: Option<Robot>)
    ensures r.Some? ==> |t| >= 2 && t[..2] == "p="
  {
    match MatchLit(t, "p=")
    case None => None
    case Some(t1) =>
      match MatchInt(t1)
      case None => None
      case Some((px, t2)) =>
        match MatchLit(t2, ",")
        case None => None
        case Some(t3) =>
          match MatchInt(t3)
          case None => None
          case Some((py, t4)) =>
            match MatchLit(t4, " v=")
            case None => None
            case Some(t5) =>
              match MatchInt(t5)
              case None => None
              case Some((vx, t6)) =>
                match MatchLit(t6, ",")
                case None => None
                case Some(t7) =>
                  match MatchInt(t7)
                  case None => None
                  case Some((vy, _)) => Some(Robot(Vec2(px, py), Vec2(vx, vy)))
  }

  /** `line.match(...)`: the regular expression is not anchored, so its
      leftmost match anywhere in the line counts. */
  function Search(line: string): (r: Option<Robot>)
    ensures r.None? <==> forall k :: 0 <= k <= |line| ==> MatchAt(line[k..]).None?
  {
    match MatchAt(line)
    case Some(robot) =>
      assert line[0..] == line;
      Some(robot)
    case None =>
      if line == [] then None
      else
        SuffixOfTail(line);
        Search(line[1..])
  }

  lemma SuffixOfTail(line: string)
    requires line != []
    ensures forall k :: 1 <= k <= |line| ==> line[1..][k - 1..] == line[k..]
  {
  }

  /** The match `Search` returns is the leftmost one: at some position with
      no match before it. */
  lemma {:induction false} SearchLeftmost(line: string)
    requires Search(line).Some?
    ensures exists k :: 0 <= k <= |line| && MatchAt(line[k..]) == Search(line) &&
                        forall j :: 0 <= j < k ==> MatchAt(line[j..]).None?
  {
    if MatchAt(line).Some? {
      assert line[0..] == line;
    } else {
      SearchLeftmost(line[1..]);
      var k :| 0 <= k <= |line[1..]| && MatchAt(line[1..][k..]) == Search(line[1..]) &&
               forall j :: 0 <= j < k ==> MatchAt(line[1..][j..]).None?;
      SuffixOfTail(line);
      assert MatchAt(line[k + 1..]) == Search(line);
      assert line[0..] == line;
      assert forall j :: 0 <= j < k + 1 ==> MatchAt(line[j..]).None? by {
        forall j | 0 <= j < k + 1 ensures MatchAt(line[j..]).None? {
          if j > 0 {
            assert line[j..] == line[1..][j - 1..];
          }
        }
      }
    }
  }

  /** `parseInput`: trimmed input split on newlines; a line without a match
      throws, which is the `None` outcome. */
  function ParseInput(input: string): (r: Option<seq<Robot>>)
    ensures r.Some? ==> |r.value| == |Split(Trim(input), '\n')|
  {
    ParseLines(Split(Trim(input), '\n'))
  }

  function ParseLines(lines: seq<string>): (r: Option<seq<Robot>>)
    ensures r.Some? ==> |r.value| == |lines|
    ensures r.Some? ==> forall i :: 0 <= i < |lines| ==> Search(lines[i]) == Some(r.value[i])
    ensures r.None? ==> exists i :: 0 <= i < |lines| && Search(lines[i]).None?
  {
    if lines == [] then Some([])
    else
      match Search(lines[0])
      case None => None
      case Some(robot) =>
        match ParseLines(lines[1..])
        case None => None
        case Some(rest) => Some([robot] + rest)
  }

  /** A robot the way the puzzle input writes it. */
  function Show(r: Robot): string
  {
    "p=" + (IntToString(r.position.x) + ("," + (IntToString(r.position.y) + (" v=" +
      (IntToString(r.velocity.x) + ("," + IntToString(r.velocity.y)))))))
  }

  lemma {:induction false} DigitRunOf(d: string, rest: string)
    requires AllDigits(d) && (rest == [] || !IsDigit(rest[0]))
    ensures DigitRun(d + rest) == |d|
  {
    if d != [] {
      assert (d + rest)[1..] == d[1..] + rest;
      DigitRunOf(d[1..], rest);
    } else {
      assert d + rest == rest;
    }
  }

  /** A printed number followed by a non-digit is read back. */
  lemma MatchIntShow(n: int, rest: string)
    requires rest == [] || !IsDigit(rest[0])
    ensures MatchInt(IntToString(n) + rest) == Some((n, rest))
  {
    var m: nat := if n < 0 then -n else n;
    var digits := NatToString(m);
    MatchDigits(m, rest);
    if n < 0 {
      var t := IntToString(n) + rest;
      assert t == "-" + (digits + rest);
      assert t[1..] == digits + rest;
    } else {
      assert IntToString(n) + rest == digits + rest;
    }
  }

  lemma MatchDigits(m: nat, rest: string)
    requires rest == [] || !IsDigit(rest[0])
    ensures var t := NatToString(m) + rest;
      DigitRun(t) == |NatToString(m)| && DigitsValue(t[..DigitRun(t)]) == m && t[DigitRun(t)..] == rest
  {
    var digits := NatToString(m);
    DigitsValueOfToString(m);
    DigitRunOf(digits, rest);
    assert (digits + rest)[..|digits|] == digits;
    assert (digits + rest)[|digits|..] == rest;
  }

  lemma MatchLitShow(lit: string, rest: string)
    ensures MatchLit(lit + rest, lit) == Some(rest)
  {
    assert (lit + rest)[..|lit|] == lit;
  }

  /** Reading a robot back from its printed form gives it back. */
  lemma MatchAtShow(r: Robot)
    ensures MatchAt(Show(r)) == Some(r)
  {
    var a, b := IntToString(r.position.x), IntToString(r.position.y);
    var c, d := IntToString(r.velocity.x), IntToString(r.velocity.y);
    var t6 := "," + d;
    var t5 := c + t6;
    var t4 := " v=" + t5;
    var t3 := b + t4;
    var t2 := "," + t3;
    var t1 := a + t2;
    MatchLitShow("p=", t1);
    MatchIntShow(r.position.x, t2);
    MatchLitShow(",", t3);
    MatchIntShow(r.position.y, t4);
    MatchLitShow(" v=", t5);
    MatchIntShow(r.velocity.x, t6);
    MatchLitShow(",", d);
    MatchIntShow(r.velocity.y, []);
    assert d + [] == d;
  }

  lemma SearchShow(r: Robot)
    ensures Search(Show(r)) == Some(r)
  {
    MatchAtShow(r);
  }

  /** The empty input is one empty line, which does not match: it throws. */
  lemma EmptyInputThrows()
    ensures ParseInput("").None?
  {
    assert Trim("") == [];
    assert Split([], '\n') == [[]];
    assert MatchLit([], "p=").None?;
  }

  // ---------------------------------------------------------------- walking

  /** JavaScript's `%`: the remainder has the sign of the dividend. */
  function Rem(a: int, m: int): int
    requires m > 0
  {
    if a >= 0 then a % m else -((-a) % m)
  }

  /** `(x + vx + width) % width`: one second of movement along one axis. The
      result is p + v up to a multiple of the size, and less than one size
      away from 0 on either side. */
  function Wrap(p: int, v: int, size: int): (r: int)
    requires size > 0
    ensures -size < r < size
    ensures r % size == (p + v) % size
  {
    RemCongruent(p + v + size, size);
    ModAdd(p + v, size, size);
    ModUnique((p + v) % size + size, size, 1, (p + v) % size);
    Rem(p + v + size, size)
  }

  /** The JavaScript remainder is within one modulus of 0 and congruent to the
      dividend. */
  lemma RemCongruent(a: int, m: int)
    requires m > 0
    ensures -m < Rem(a, m) < m && Rem(a, m) % m == a % m
  {
    if a >= 0 {
      ModUnique(a % m, m, 0, a % m);
    } else {
      var b := -a;
      var q, t := b / m, b % m;
      if t == 0 {
        ModUnique(a, m, -q, 0);
      } else {
        ModUnique(-t, m, -1, m - t);
        ModUnique(a, m, -q - 1, m - t);
      }
    }
  }

  function StepRobot(r: Robot, size: Vec2): (s: Robot)
    requires size.x > 0 && size.y > 0
    ensures s.velocity == r.velocity
  {
    Robot(Vec2(Wrap(r.position.x, r.velocity.x, size.x), Wrap(r.position.y, r.velocity.y, size.y)), r.velocity)
  }

  /** A robot after n seconds. */
  function Advance(r: Robot, size: Vec2, n: nat): (s: Robot)
    requires size.x > 0 && size.y > 0
    ensures s.velocity == r.velocity
  {
    if n == 0 then r else StepRobot(Advance(r, size, n - 1), size)
  }

  function AdvanceAll(rs: seq<Robot>, size: Vec2, n: nat): (after: seq<Robot>)
    requires size.x > 0 && size.y > 0
    ensures |after| == |rs|
  {
    seq(|rs|, k requires 0 <= k < |rs| => Advance(rs[k], size, n))
  }

  /** x % m only depends on x up to multiples of m. */
  lemma ModUnique(x: int, m: int, q: int, r: int)
    requires m > 0 && x == q * m + r && 0 <= r < m
    ensures x % m == r
  {
    var q', r' := x / m, x % m;
    assert (q - q') * m == r' - r;
    MulBounds(q - q', m);
  }

  lemma MulBounds(k: int, m: int)
    requires m > 0
    ensures k >= 1 ==> k * m >= m
    ensures k <= -1 ==> k * m + m <= 0
  {
    if k >= 1 {
      assert k * m == (k - 1) * m + m;
      assert (k - 1) * m >= 0;
    } else if k <= -1 {
      assert k * m == (k + 1) * m - m;
      assert (k + 1) * m <= 0;
    }
  }

  lemma ModAdd(a: int, b: int, m: int)
    requires m > 0
    ensures (a % m + b) % m == (a + b) % m
  {
    var t := (a % m + b) % m;
    var q1, q2 := a / m, (a % m + b) / m;
    assert a == q1 * m + a % m;
    assert a % m + b == q2 * m + t;
    assert a + b == (q1 + q2) * m + t;
    ModUnique(a + b, m, q1 + q2, t);
  }

  /** For a coordinate on the board and a velocity no faster than one board
      length backwards, a step stays on the board and is addition modulo the
      board size. */
  lemma WrapInRange(p: int, v: int, size: int)
    requires size > 0 && 0 <= p < size && v >= -size
    ensures Wrap(p, v, size) == (p + v) % size
  {
    ModAdd(p + v, size, size);
    assert (p + v) % size + size == size * 1 + (p + v) % size;
    ModUnique((p + v) % size + size, size, 1, (p + v) % size);
  }

  /** A velocity more than a board length backwards leaves the board: at
      x = 0 with vx = -12 on a board 11 wide, the next x is -1. */
  lemma WrapLeavesBoard()
    ensures Wrap(0, -12, 11) == -1
  {
  }

  /** After n seconds a robot is at its start plus n times its velocity,
      modulo the board size. */
  lemma {:induction false} AdvanceClosedForm(r: Robot, size: Vec2, n: nat)
    requires size.x > 0 && size.y > 0
    requires 0 <= r.position.x < size.x && 0 <= r.position.y < size.y
    requires r.velocity.x >= -size.x && r.velocity.y >= -size.y
    ensures Advance(r, size, n).position ==
      Vec2((r.position.x + n * r.velocity.x) % size.x, (r.position.y + n * r.velocity.y) % size.y)
  {
    if n > 0 {
      AdvanceClosedForm(r, size, n - 1);
      var p := Advance(r, size, n - 1).position;
      var v := r.velocity;
      WrapInRange(p.x, v.x, size.x);
      WrapInRange(p.y, v.y, size.y);
      ModAdd(r.position.x + (n - 1) * v.x, v.x, size.x);
      ModAdd(r.position.y + (n - 1) * v.y, v.y, size.y);
      assert (n - 1) * v.x + v.x == n * v.x;
      assert (n - 1) * v.y + v.y == n * v.y;
    }
  }

  /** The simulation loop of `solve`: every robot takes `seconds` steps, one
      second at a time, in place. */
  method Simulate(robots: array<Robot>, size: Vec2, seconds: nat)
    requires size.x > 0 && size.y > 0
    modifies robots
    ensures robots[..] == AdvanceAll(old(robots[..]), size, seconds)
  {
    ghost var start := robots[..];
    var i := 0;
    while i < seconds
      invariant 0 <= i <= seconds
      invariant robots[..] == AdvanceAll(start, size, i)
    {
      var j := 0;
      while j < robots.Length
        invariant 0 <= j <= robots.Length
        invariant forall k :: 0 <= k < j ==> robots[k] == Advance(start[k], size, i + 1)
        invariant forall k :: j <= k < robots.Length ==> robots[k] == Advance(start[k], size, i)
      {
        robots[j] := StepRobot(robots[j], size);
        j := j + 1;
      }
      i := i + 1;
      assert robots[..] == AdvanceAll(start, size, i);
    }
  }

  // ---------------------------------------------------------------- safety score

  const TopLeft: nat := 0
  const TopRight: nat := 1
  const BottomLeft: nat := 2
  const BottomRight: nat := 3

  /** The quadrant a position counts in, or `None` on the middle row or
      column (`Math.floor(width / 2)`, `Math.floor(height / 2)`). */
  function QuadrantOf(p: Vec2, size: Vec2): (q: Option<nat>)
    requires size.x > 0 && size.y > 0
    ensures q.Some? ==> q.value < 4
  {
    var midX, midY := size.x / 2, size.y / 2;
    if p.x < midX && p.y < midY then Some(TopLeft)
    else if p.x < midX && p.y > midY then Some(BottomLeft)
    else if p.x > midX && p.y < midY then Some(TopRight)
    else if p.x > midX && p.y > midY then Some(BottomRight)
    else None
  }

  /** Exactly the robots on the middle row or column are not counted. */
  lemma MiddleNotCounted(p: Vec2, size: Vec2)
    requires size.x > 0 && size.y > 0
    ensures QuadrantOf(p, size).None? <==> p.x == size.x / 2 || p.y == size.y / 2
  {
  }

  /** The number of robots counted in quadrant q. */
  function CountIn(robots: seq<Robot>, size: Vec2, q: nat): nat
    requires size.x > 0 && size.y > 0
  {
    if robots == [] then 0
    else CountIn(robots[..|robots| - 1], size, q) + (if QuadrantOf(robots[|robots| - 1].position, size) == Some(q) then 1 else 0)
  }

  /** The number of robots on the middle lines. */
  function Middle(robots: seq<Robot>, size: Vec2): nat
    requires size.x > 0 && size.y > 0
  {
    if robots == [] then 0
    else Middle(robots[..|robots| - 1], size) + (if QuadrantOf(robots[|robots| - 1].position, size).None? then 1 else 0)
  }

  /** `getSafetyScore`'s product: 0 exactly when some quadrant is empty. */
  function Score(robots: seq<Robot>, size: Vec2): (r: nat)
    requires size.x > 0 && size.y > 0
    ensures r == 0 <==> CountIn(robots, size, TopLeft) == 0 || CountIn(robots, size, TopRight) == 0 ||
                        CountIn(robots, size, BottomLeft) == 0 || CountIn(robots, size, BottomRight) == 0
  {
    var a, b := CountIn(robots, size, TopLeft), CountIn(robots, size, TopRight);
    var c, d := CountIn(robots, size, BottomLeft), CountIn(robots, size, BottomRight);
    ProductZero(a, b, c, d);
    a * b * c * d
  }

  lemma ProductZero(a: nat, b: nat, c: nat, d: nat)
    ensures a * b * c * d == 0 <==> a == 0 || b == 0 || c == 0 || d == 0
  {
    if a > 0 && b > 0 && c > 0 && d > 0 {
      assert a * b > 0;
      assert a * b * c > 0;
    }
  }

  /** Every robot is in exactly one quadrant or on a middle line. */
  lemma {:induction false} CountsCover(robots: seq<Robot>, size: Vec2)
    requires size.x > 0 && size.y > 0
    ensures CountIn(robots, size, TopLeft) + CountIn(robots, size, TopRight) +
            CountIn(robots, size, BottomLeft) + CountIn(robots, size, BottomRight) +
            Middle(robots, size) == |robots|
  {
    if robots != [] {
      CountsCover(robots[..|robots| - 1], size);
    }
  }

  /** `getSafetyScore`: one pass over the robots with four counters. */
  method SafetyScore(robots: seq<Robot>, size: Vec2) returns (score: nat)
    requires size.x > 0 && size.y > 0
    ensures score == Score(robots, size)
  {
    var topLeft, topRight, bottomLeft, bottomRight := 0, 0, 0, 0;
    var midX, midY := size.x / 2, size.y / 2;
    var j := 0;
    while j < |robots|
      invariant 0 <= j <= |robots|
      invariant topLeft == CountIn(robots[..j], size, TopLeft)
      invariant topRight == CountIn(robots[..j], size, TopRight)
      invariant bottomLeft == CountIn(robots[..j], size, BottomLeft)
      invariant bottomRight == CountIn(robots[..j], size, BottomRight)
    {
      var position := robots[j].position;
      assert robots[..j + 1][..j] == robots[..j];
      if position.x < midX && position.y < midY {
        topLeft := topLeft + 1;
      } else if position.x < midX && position.y > midY {
        bottomLeft := bottomLeft + 1;
      } else if position.x > midX && position.y < midY {
        topRight := topRight + 1;
      } else if position.x > midX && position.y > midY {
        bottomRight := bottomRight + 1;
      }
      j := j + 1;
    }
    assert robots[..j] == robots;
    score := topLeft * topRight * bottomLeft * bottomRight;
  }

  /** `solve`: parse, simulate 100 seconds, score. A line that does not
      match is the error outcome. */
  method Solve(input: string, size: Vec2) returns (r: Option<nat>)
    requires size.x > 0 && size.y > 0
    ensures ParseInput(input).None? ==> r.None?
    ensures ParseInput(input).Some? ==> r == Some(Score(AdvanceAll(ParseInput(input).value, size, 100), size))
  {
    var parsed := ParseInput(input);
    if parsed.None? {
      return None;
    }
    var score := Run(parsed.value, size, 100);
    r := Some(score);
  }

  /** The robots copied into an array, moved for some seconds and scored. */
  method Run(start: seq<Robot>, size: Vec2, seconds: nat) returns (score: nat)
    requires size.x > 0 && size.y > 0
    ensures score == Score(AdvanceAll(start, size, seconds), size)
  {
    var robots := new Robot[|start|](k requires 0 <= k < |start| => start[k]);
    assert robots[..] == start;
    Simulate(robots, size, seconds);
    score := SafetyScore(robots[..], size);
  }
}

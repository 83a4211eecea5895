// Day 12, part one: garden regions with their area and perimeter. The
// explorer is a recursive depth-first search that marks a `visited` matrix;
// each call also hands back (as ghost output) the cells it marked, in order.
module Day12Ex1 {
  import opened Text
  import opened Day12Regions

  datatype Region = Region(symbol: char, area: nat, perimeter: nat)

  function NonEmptyLines(ls: seq<string>): (r: seq<string>)
    ensures |r| <= |ls|
    ensures forall i :: 0 <= i < |r| ==> r[i] != []
  {
    if ls == [] then [] else (if ls[0] == [] then [] else [ls[0]]) + NonEmptyLines(ls[1..])
  }

  /** Dropping empty lines keeps every other line, in order. */
  lemma {:induction false} NonEmptyLinesKeeps(ls: seq<string>)
    requires forall i :: 0 <= i < |ls| ==> ls[i] != []
    ensures NonEmptyLines(ls) == ls
  {
    if ls != [] {
      NonEmptyLinesKeeps(ls[1..]);
    }
  }

  ghost predicate Rectangular(lines: seq<string>)
  {
    forall i :: 0 <= i < |lines| ==> |lines[i]| == |lines[0]|
  }

  predicate InGrid(lines: seq<string>, c: Cell)
  {
    |lines| > 0 && 0 <= c.0 < |lines| && 0 <= c.1 < |lines[0]|
  }

  function At(lines: seq<string>, c: Cell): char
    requires Rectangular(lines) && InGrid(lines, c)
  {
    lines[c.0][c.1]
  }

  /** The side of c facing direction k is fence: it faces the edge of the
      map or a plot with another symbol. */
  predicate Fence(lines: seq<string>, c: Cell, k: nat)
    requires Rectangular(lines) && InGrid(lines, c) && k < 4
  {
    !InGrid(lines, Neighbour(c, k)) || At(lines, Neighbour(c, k)) != At(lines, c)
  }

  /** The fenced sides of c among the first k directions. */
  function FencesUpTo(lines: seq<string>, c: Cell, k: nat): (n: nat)
    requires Rectangular(lines) && InGrid(lines, c) && k <= 4
    ensures n <= k
  {
    if k == 0 then 0 else FencesUpTo(lines, c, k - 1) + (if Fence(lines, c, k - 1) then 1 else 0)
  }

  ghost predicate AllIn(lines: seq<string>, s: seq<Cell>)
  {
    forall i :: 0 <= i < |s| ==> InGrid(lines, s[i])
  }

  /** The perimeter of a set of plots: their fenced sides. */
  function SumSides(lines: seq<string>, s: seq<Cell>): nat
    requires Rectangular(lines) && AllIn(lines, s)
  {
    if s == [] then 0 else SumSides(lines, s[..|s| - 1]) + FencesUpTo(lines, s[|s| - 1], 4)
  }

  lemma {:induction false} SumSidesAppend(lines: seq<string>, a: seq<Cell>, b: seq<Cell>)
    requires Rectangular(lines) && AllIn(lines, a) && AllIn(lines, b)
    ensures AllIn(lines, a + b)
    ensures SumSides(lines, a + b) == SumSides(lines, a) + SumSides(lines, b)
  {
    if b != [] {
      SumSidesAppend(lines, a, b[..|b| - 1]);
      assert (a + b)[..|a + b| - 1] == a + b[..|b| - 1];
    } else {
      assert a + b == a;
    }
  }

  /** Every plot next to c with c's symbol has been reached. */
  ghost predicate Closed(lines: seq<string>, unvisited: set<Cell>, c: Cell)
    requires Rectangular(lines) && InGrid(lines, c)
  {
    forall k :: 0 <= k < 4 && InGrid(lines, Neighbour(c, k)) && At(lines, Neighbour(c, k)) == At(lines, c) ==>
      Neighbour(c, k) !in unvisited
  }

  ghost function Unvisited(v: array2<bool>): set<Cell>
    reads v
  {
    set i: int, j: int | 0 <= i < v.Length0 && 0 <= j < v.Length1 && !v[i, j] :: (i, j)
  }

  ghost predicate Shape(lines: seq<string>, v: array2<bool>)
  {
    Rectangular(lines) && |lines| > 0 && v.Length0 == |lines| && v.Length1 == |lines[0]|
  }

  /** What an exploration from u0 to u1 has done: it marked exactly the
      cells of `region`, once each, all plots of `symbol`; they are
      connected, and every same-symbol neighbour of them is marked too. */
  ghost predicate Explored(lines: seq<string>, symbol: char, u0: set<Cell>, u1: set<Cell>, region: seq<Cell>)
    requires Rectangular(lines)
  {
    Elems(region) <= u0 && u1 == u0 - Elems(region) && Distinct(region) && Connected(region) &&
    AllIn(lines, region) && (forall m :: 0 <= m < |region| ==> At(lines, region[m]) == symbol) &&
    (forall m :: 0 <= m < |region| ==> Closed(lines, u1, region[m]))
  }

  /** The state of `explore_region` at c after k directions: c and the cells
      in `rest` are marked, and the same-symbol neighbours of c in the first
      k directions are marked. */
  ghost predicate Partial(lines: seq<string>, symbol: char, start: set<Cell>, u: set<Cell>, c: Cell, rest: seq<Cell>, k: nat)
    requires Rectangular(lines)
  {
    k <= 4 && InGrid(lines, c) && At(lines, c) == symbol && c in start &&
    Elems([c] + rest) <= start && u == start - Elems([c] + rest) &&
    Distinct([c] + rest) && Connected([c] + rest) &&
    AllIn(lines, rest) && (forall m :: 0 <= m < |rest| ==> At(lines, rest[m]) == symbol) &&
    (forall m :: 0 <= m < |rest| ==> Closed(lines, u, rest[m])) &&
    (forall d :: 0 <= d < k && InGrid(lines, Neighbour(c, d)) && At(lines, Neighbour(c, d)) == symbol ==>
      Neighbour(c, d) !in u)
  }

  /** Marking c starts the exploration. */
  lemma PartialStart(lines: seq<string>, symbol: char, start: set<Cell>, c: Cell)
    requires Rectangular(lines) && InGrid(lines, c) && At(lines, c) == symbol && c in start
    ensures Partial(lines, symbol, start, start - {c}, c, [], 0)
  {
    assert [c] + [] == [c];
    assert Elems([c]) == {c};
  }

  /** A fenced side changes nothing that was marked. */
  lemma PartialFence(lines: seq<string>, symbol: char, start: set<Cell>, u: set<Cell>, c: Cell, rest: seq<Cell>, k: nat)
    requires Rectangular(lines) && Partial(lines, symbol, start, u, c, rest, k) && k < 4
    requires !InGrid(lines, Neighbour(c, k)) || At(lines, Neighbour(c, k)) != symbol
    ensures Partial(lines, symbol, start, u, c, rest, k + 1)
    ensures FencesUpTo(lines, c, k + 1) == FencesUpTo(lines, c, k) + 1
  {
  }

  /** Marking c made the unvisited set strictly smaller. */
  lemma PartialSmaller(lines: seq<string>, symbol: char, start: set<Cell>, u: set<Cell>, c: Cell, rest: seq<Cell>, k: nat)
    requires Rectangular(lines) && Partial(lines, symbol, start, u, c, rest, k)
    ensures |u| < |start|
  {
    assert c in start && c !in u && u <= start;
    assert u < start;
  }

  /** Exploring the same-symbol neighbour in direction k adds what that
      exploration marked. */
  lemma PartialExplore(lines: seq<string>, symbol: char, start: set<Cell>, u: set<Cell>, w: set<Cell>,
                       c: Cell, rest: seq<Cell>, k: nat, sub: seq<Cell>)
    requires Rectangular(lines) && Partial(lines, symbol, start, u, c, rest, k) && k < 4
    requires InGrid(lines, Neighbour(c, k)) && At(lines, Neighbour(c, k)) == symbol
    requires Explored(lines, symbol, u, w, sub)
    requires sub == [] <==> Neighbour(c, k) !in u
    requires sub != [] ==> sub[0] == Neighbour(c, k)
    ensures Partial(lines, symbol, start, w, c, rest + sub, k + 1)
    ensures FencesUpTo(lines, c, k + 1) == FencesUpTo(lines, c, k)
  {
    var region := [c] + rest;
    assert region + sub == [c] + (rest + sub);
    if sub != [] {
      assert Adjacent(region[0], sub[0]);
    }
    ConnectedAppend(region, sub);
    DistinctAppend(region, sub);
    var r2 := rest + sub;
    forall m | 0 <= m < |r2| ensures Closed(lines, w, r2[m]) {
      if m < |rest| {
        assert Closed(lines, u, rest[m]);
        ClosedShrinks(lines, u, w, rest[m]);
      } else {
        assert r2[m] == sub[m - |rest|];
      }
    }
    forall m | 0 <= m < |r2| ensures InGrid(lines, r2[m]) && At(lines, r2[m]) == symbol {
      if m >= |rest| {
        assert r2[m] == sub[m - |rest|];
      }
    }
  }

  /** The fence counted so far by the exploration at c after k directions. */
  function Progress(lines: seq<string>, c: Cell, rest: seq<Cell>, k: nat): nat
    requires Rectangular(lines) && InGrid(lines, c) && k <= 4 && AllIn(lines, rest)
  {
    FencesUpTo(lines, c, k) + SumSides(lines, rest)
  }

  /** After the four directions the exploration from c is complete. */
  lemma PartialDone(lines: seq<string>, symbol: char, start: set<Cell>, u: set<Cell>, c: Cell, rest: seq<Cell>)
    requires Rectangular(lines) && Partial(lines, symbol, start, u, c, rest, 4)
    ensures Explored(lines, symbol, start, u, [c] + rest)
    ensures SumSides(lines, [c] + rest) == Progress(lines, c, rest, 4)
  {
    var region := [c] + rest;
    SumSidesAppend(lines, [c], rest);
    assert SumSides(lines, [c]) == FencesUpTo(lines, c, 4) by {
      assert [c][..0] == [];
    }
    forall m | 0 <= m < |region| ensures Closed(lines, u, region[m]) {
      if m > 0 {
        assert region[m] == rest[m - 1];
      }
    }
  }

  /** `explore_region`: (0, 0) for a position outside the map, already
      visited, or with another symbol; otherwise the plot is marked and the
      four neighbours are explored in turn. The marked cells form a connected
      region of the symbol, closed under same-symbol neighbours, and the
      result is its size and its fenced sides. */
  method Explore(lines: seq<string>, visited: array2<bool>, row: nat, col: nat, symbol: char)
      returns (area: nat, perimeter: nat, ghost region: seq<Cell>)
    requires Shape(lines, visited)
    modifies visited
    ensures Explored(lines, symbol, old(Unvisited(visited)), Unvisited(visited), region)
    ensures area == |region| && perimeter == SumSides(lines, region)
    ensures region == [] <==> !InGrid(lines, (row, col)) || (row, col) !in old(Unvisited(visited)) || lines[row][col] != symbol
    ensures region != [] ==> region[0] == (row, col)
    decreases |Unvisited(visited)|, 3
  {
    if row >= |lines| || col >= |lines[0]| || visited[row, col] || lines[row][col] != symbol {
      assert InGrid(lines, (row, col)) ==> visited[row, col] ==> (row, col) !in Unvisited(visited);
      return 0, 0, [];
    }
    area, perimeter, region := ExploreFrom(lines, visited, row, col, symbol);
  }

  /** `explore_region` past its guard: the plot at (row, col) is marked and
      the four neighbours are explored. */
  method ExploreFrom(lines: seq<string>, visited: array2<bool>, row: nat, col: nat, symbol: char)
      returns (area: nat, perimeter: nat, ghost region: seq<Cell>)
    requires Shape(lines, visited) && row < |lines| && col < |lines[0]|
    requires !visited[row, col] && lines[row][col] == symbol
    modifies visited
    ensures Explored(lines, symbol, old(Unvisited(visited)), Unvisited(visited), region)
    ensures area == |region| && perimeter == SumSides(lines, region)
    ensures region != [] && region[0] == (row, col)
    decreases |Unvisited(visited)|, 2
  {
    ghost var start := Unvisited(visited);
    ghost var c: Cell := (row, col);
    Mark(visited, row, col);
    PartialStart(lines, symbol, start, c);
    ghost var rest;
    area, perimeter, rest := ExploreSides(lines, visited, row, col, symbol, start);
    PartialDone(lines, symbol, start, Unvisited(visited), c, rest);
    region := [c] + rest;
  }

  /** The direction loop of `explore_region`, after c has been marked: the
      area is c with what the neighbours added, the perimeter the fenced
      sides of all of them. */
  method ExploreSides(lines: seq<string>, visited: array2<bool>, row: nat, col: nat, symbol: char, ghost start: set<Cell>)
      returns (area: nat, perimeter: nat, ghost rest: seq<Cell>)
    requires Shape(lines, visited)
    requires Partial(lines, symbol, start, Unvisited(visited), (row, col), [], 0)
    modifies visited
    ensures Partial(lines, symbol, start, Unvisited(visited), (row, col), rest, 4)
    ensures area == 1 + |rest| && perimeter == Progress(lines, (row, col), rest, 4)
    decreases |start|, 1
  {
    ghost var c: Cell := (row, col);
    area, perimeter, rest := 1, 0, [];
    var k: nat := 0;
    while k < 4
      invariant k <= 4 && InGrid(lines, c)
      invariant Partial(lines, symbol, start, Unvisited(visited), c, rest, k)
      invariant area == 1 + |rest| && perimeter == Progress(lines, c, rest, k)
      decreases 4 - k
    {
      var sideArea, sidePerimeter, sub := ExploreSide(lines, visited, row, col, k, symbol, start, rest);
      area, perimeter := area + sideArea, perimeter + sidePerimeter;
      rest := rest + sub;
      k := k + 1;
      assert AllIn(lines, rest);
      assert perimeter == Progress(lines, c, rest, k);
    }
  }

  /** One turn of the direction loop of `explore_region`: a side facing the
      edge or another symbol is one unit of fence, otherwise the neighbour is
      explored and its area and perimeter are added. */
  method ExploreSide(lines: seq<string>, visited: array2<bool>, row: nat, col: nat, k: nat, symbol: char,
                     ghost start: set<Cell>, ghost rest: seq<Cell>)
      returns (area: nat, perimeter: nat, ghost sub: seq<Cell>)
    requires Shape(lines, visited) && k < 4
    requires Partial(lines, symbol, start, Unvisited(visited), (row, col), rest, k)
    modifies visited
    ensures Partial(lines, symbol, start, Unvisited(visited), (row, col), rest + sub, k + 1)
    ensures area == |sub|
    ensures Progress(lines, (row, col), rest + sub, k + 1) == Progress(lines, (row, col), rest, k) + perimeter
    decreases |start|, 0
  {
    ghost var c: Cell := (row, col);
    var n := Neighbour((row, col), k);
    ghost var before := Unvisited(visited);
    if !InGrid(lines, n) || lines[n.0][n.1] != symbol {
      PartialFence(lines, symbol, start, before, c, rest, k);
      assert rest + [] == rest;
      return 0, 1, [];
    }
    PartialSmaller(lines, symbol, start, before, c, rest, k);
    area, perimeter, sub := Explore(lines, visited, n.0, n.1, symbol);
    PartialExplore(lines, symbol, start, before, Unvisited(visited), c, rest, k, sub);
    SumSidesAppend(lines, rest, sub);
  }

  /** Setting one entry removes exactly that cell from the unvisited set. */
  method Mark(visited: array2<bool>, row: nat, col: nat)
    requires row < visited.Length0 && col < visited.Length1
    modifies visited
    ensures Unvisited(visited) == old(Unvisited(visited)) - {(row, col)}
    ensures (row, col) in old(Unvisited(visited)) ==> |Unvisited(visited)| < |old(Unvisited(visited))|
  {
    visited[row, col] := true;
    assert Unvisited(visited) == old(Unvisited(visited)) - {(row, col)} by {
      forall i, j | 0 <= i < visited.Length0 && 0 <= j < visited.Length1
        ensures visited[i, j] == (old(visited[i, j]) || (i, j) == (row, col))
      {
      }
    }
  }

  lemma ClosedShrinks(lines: seq<string>, u: set<Cell>, w: set<Cell>, c: Cell)
    requires Rectangular(lines) && InGrid(lines, c) && w <= u && Closed(lines, u, c)
    ensures Closed(lines, w, c)
  {
  }

  /** No same-symbol plot next to the region lies outside it. */
  ghost predicate Maximal(lines: seq<string>, part: seq<Cell>)
    requires Rectangular(lines) && AllIn(lines, part)
  {
    forall m, d ::
      (0 <= m < |part| && 0 <= d < 4 && InGrid(lines, Neighbour(part[m], d)) &&
       At(lines, Neighbour(part[m], d)) == At(lines, part[m])) ==> Neighbour(part[m], d) in Elems(part)
  }

  /** r is the region made of the plots in part: a non-empty connected and
      maximal set of plots of r's symbol, with r's area and perimeter. */
  ghost predicate Describes(lines: seq<string>, r: Region, part: seq<Cell>)
    requires Rectangular(lines)
  {
    part != [] && AllIn(lines, part) && Distinct(part) && Connected(part) &&
    (forall m :: 0 <= m < |part| ==> At(lines, part[m]) == r.symbol) &&
    Maximal(lines, part) && r.area == |part| && r.perimeter == SumSides(lines, part)
  }

  function Cells(lines: seq<string>): set<Cell>
  {
    if lines == [] then {} else Rect(|lines|, |lines[0]|)
  }

  /** The regions split the map: every plot lies in exactly one of them. */
  ghost predicate Partition(lines: seq<string>, regions: seq<Region>, parts: seq<seq<Cell>>)
    requires Rectangular(lines)
  {
    |regions| == |parts| && (forall k :: 0 <= k < |parts| ==> Describes(lines, regions[k], parts[k])) &&
    Distinct(Flatten(parts)) && Elems(Flatten(parts)) == Cells(lines)
  }

  ghost predicate AllClosed(lines: seq<string>, u: set<Cell>, s: seq<Cell>)
    requires Rectangular(lines) && AllIn(lines, s)
  {
    forall m :: 0 <= m < |s| ==> Closed(lines, u, s[m])
  }

  /** The state of `flood_fill` between two explorations: `done` lists the
      plots of the regions found so far, which are the visited plots. */
  ghost predicate Filling(lines: seq<string>, u: set<Cell>, regions: seq<Region>, parts: seq<seq<Cell>>, done: seq<Cell>)
    requires Rectangular(lines)
  {
    lines != [] && u <= Cells(lines) && done == Flatten(parts) && AllIn(lines, done) &&
    Elems(done) == Cells(lines) - u && Distinct(done) && AllClosed(lines, u, done) &&
    |regions| == |parts| && (forall k :: 0 <= k < |parts| ==> Describes(lines, regions[k], parts[k]))
  }

  lemma FillStart(lines: seq<string>)
    requires Rectangular(lines) && lines != []
    ensures Filling(lines, Cells(lines), [], [], [])
  {
  }

  /** An exploration from an unvisited plot finds a maximal region. */
  lemma NewRegionMaximal(lines: seq<string>, u0: set<Cell>, u1: set<Cell>, done: seq<Cell>, symbol: char, part: seq<Cell>)
    requires Rectangular(lines) && lines != [] && u0 <= Cells(lines) && AllIn(lines, done)
    requires Elems(done) == Cells(lines) - u0 && AllClosed(lines, u0, done)
    requires Explored(lines, symbol, u0, u1, part)
    ensures Maximal(lines, part)
  {
    forall m, d | 0 <= m < |part| && 0 <= d < 4 && InGrid(lines, Neighbour(part[m], d)) &&
        At(lines, Neighbour(part[m], d)) == At(lines, part[m])
      ensures Neighbour(part[m], d) in Elems(part)
    {
      var x, n := part[m], Neighbour(part[m], d);
      assert Closed(lines, u1, x);
      assert n !in u1;
      if n !in Elems(part) {
        assert n in Elems(done);
        var t :| 0 <= t < |done| && done[t] == n;
        Opposite(x, d);
        assert false;
      }
    }
  }

  /** Adding the region an exploration found keeps the state of the fill. */
  lemma FillStep(lines: seq<string>, u0: set<Cell>, u1: set<Cell>, regions: seq<Region>, parts: seq<seq<Cell>>,
                 done: seq<Cell>, r: Region, part: seq<Cell>)
    requires Rectangular(lines) && Filling(lines, u0, regions, parts, done)
    requires Explored(lines, r.symbol, u0, u1, part) && part != []
    requires r.area == |part| && r.perimeter == SumSides(lines, part)
    ensures Filling(lines, u1, regions + [r], parts + [part], done + part)
  {
    NewRegionMaximal(lines, u0, u1, done, r.symbol, part);
    FlattenSnoc(parts, part);
    DistinctAppend(done, part);
    ClosedAppend(lines, u0, u1, done, part);
    DescribesAppend(lines, regions, parts, r, part);
  }

  lemma ClosedAppend(lines: seq<string>, u0: set<Cell>, u1: set<Cell>, done: seq<Cell>, part: seq<Cell>)
    requires Rectangular(lines) && AllIn(lines, done) && AllIn(lines, part) && u1 <= u0
    requires AllClosed(lines, u0, done) && AllClosed(lines, u1, part)
    ensures AllIn(lines, done + part) && AllClosed(lines, u1, done + part)
  {
    var s := done + part;
    forall m | 0 <= m < |s| ensures InGrid(lines, s[m]) {
      if m >= |done| {
        assert s[m] == part[m - |done|];
      }
    }
    forall m | 0 <= m < |s| ensures Closed(lines, u1, s[m]) {
      if m < |done| {
        assert Closed(lines, u0, done[m]);
        ClosedShrinks(lines, u0, u1, done[m]);
      } else {
        assert s[m] == part[m - |done|];
        assert Closed(lines, u1, part[m - |done|]);
      }
    }
  }

  lemma DescribesAppend(lines: seq<string>, regions: seq<Region>, parts: seq<seq<Cell>>, r: Region, part: seq<Cell>)
    requires Rectangular(lines) && |regions| == |parts| && Describes(lines, r, part)
    requires forall k :: 0 <= k < |parts| ==> Describes(lines, regions[k], parts[k])
    ensures forall k :: 0 <= k < |parts| + 1 ==> Describes(lines, (regions + [r])[k], (parts + [part])[k])
  {
    var rs, ps := regions + [r], parts + [part];
    forall k | 0 <= k < |ps| ensures Describes(lines, rs[k], ps[k]) {
      if k < |parts| {
        assert rs[k] == regions[k] && ps[k] == parts[k];
      }
    }
  }

  /** Once every plot is visited the fill is a partition of the map. */
  lemma FillDone(lines: seq<string>, regions: seq<Region>, parts: seq<seq<Cell>>, done: seq<Cell>)
    requires Rectangular(lines) && Filling(lines, {}, regions, parts, done)
    ensures Partition(lines, regions, parts)
  {
  }

  lemma UnvisitedInRect(v: array2<bool>)
    ensures Unvisited(v) <= Rect(v.Length0, v.Length1)
  {
  }

  /** One plot of the scan in `flood_fill`: an unvisited plot starts a new
      region, which is explored and recorded. */
  method FillCell(lines: seq<string>, visited: array2<bool>, i: nat, j: nat, regions0: seq<Region>,
                  ghost parts0: seq<seq<Cell>>, ghost done0: seq<Cell>)
      returns (regions: seq<Region>, ghost parts: seq<seq<Cell>>, ghost done: seq<Cell>)
    requires Shape(lines, visited) && i < |lines| && j < |lines[0]|
    requires Filling(lines, Unvisited(visited), regions0, parts0, done0)
    modifies visited
    ensures Filling(lines, Unvisited(visited), regions, parts, done)
    ensures Unvisited(visited) <= old(Unvisited(visited)) && (i, j) !in Unvisited(visited)
  {
    regions, parts, done := regions0, parts0, done0;
    ghost var u0 := Unvisited(visited);
    if !visited[i, j] {
      var symbol := lines[i][j];
      var area, perimeter, region := Explore(lines, visited, i, j, symbol);
      FillStep(lines, u0, Unvisited(visited), regions, parts, done, Region(symbol, area, perimeter), region);
      regions := regions + [Region(symbol, area, perimeter)];
      parts := parts + [region];
      done := done + region;
      assert (i, j) in Elems(region);
    } else {
      assert (i, j) !in u0;
    }
  }

  /** One row of the scan in `flood_fill`. */
  method FillRow(lines: seq<string>, visited: array2<bool>, i: nat, regions0: seq<Region>,
                 ghost parts0: seq<seq<Cell>>, ghost done0: seq<Cell>)
      returns (regions: seq<Region>, ghost parts: seq<seq<Cell>>, ghost done: seq<Cell>)
    requires Shape(lines, visited) && i < |lines|
    requires Filling(lines, Unvisited(visited), regions0, parts0, done0)
    requires forall x :: x in Unvisited(visited) ==> x.0 >= i
    modifies visited
    ensures Filling(lines, Unvisited(visited), regions, parts, done)
    ensures forall x :: x in Unvisited(visited) ==> x.0 > i
  {
    regions, parts, done := regions0, parts0, done0;
    var j := 0;
    while j < |lines[i]|
      invariant 0 <= j <= |lines[0]|
      invariant Filling(lines, Unvisited(visited), regions, parts, done)
      invariant forall x :: x in Unvisited(visited) ==> x.0 > i || (x.0 == i && x.1 >= j)
    {
      regions, parts, done := FillCell(lines, visited, i, j, regions, parts, done);
      j := j + 1;
    }
    UnvisitedInRect(visited);
  }

  /** `flood_fill`: the non-empty lines of the input are the map; every plot
      not yet visited when the row-major scan reaches it starts a region. */
  method FloodFill(input: string) returns (regions: seq<Region>, ghost parts: seq<seq<Cell>>)
    requires Rectangular(NonEmptyLines(Lines(input)))
    ensures Partition(NonEmptyLines(Lines(input)), regions, parts)
    ensures NonEmptyLines(Lines(input)) == [] ==> regions == []
  {
    var lines := NonEmptyLines(Lines(input));
    if lines == [] {
      return [], [];
    }
    var rows, cols := |lines|, |lines[0]|;
    var visited := new bool[rows, cols]((i, j) => false);
    assert Unvisited(visited) == Cells(lines);
    FillStart(lines);
    regions, parts := [], [];
    ghost var done: seq<Cell> := [];
    var i := 0;
    while i < rows
      invariant 0 <= i <= rows && Shape(lines, visited)
      invariant Filling(lines, Unvisited(visited), regions, parts, done)
      invariant forall x :: x in Unvisited(visited) ==> x.0 >= i
    {
      regions, parts, done := FillRow(lines, visited, i, regions, parts, done);
      i := i + 1;
    }
    UnvisitedInRect(visited);
    assert Unvisited(visited) == {};
    FillDone(lines, regions, parts, done);
  }

  function TotalArea(regions: seq<Region>): nat
  {
    if regions == [] then 0 else TotalArea(regions[..|regions| - 1]) + regions[|regions| - 1].area
  }

  /** The fencing price of the regions: area times perimeter, summed. */
  function Price(regions: seq<Region>): nat
  {
    if regions == [] then 0 else Price(regions[..|regions| - 1]) + regions[|regions| - 1].area * regions[|regions| - 1].perimeter
  }

  lemma {:induction false} AreaFlatten(regions: seq<Region>, parts: seq<seq<Cell>>)
    requires |regions| == |parts| && forall k :: 0 <= k < |parts| ==> regions[k].area == |parts[k]|
    ensures TotalArea(regions) == |Flatten(parts)|
  {
    if parts != [] {
      AreaFlatten(regions[..|regions| - 1], parts[..|parts| - 1]);
    }
  }

  /** The areas of the regions of a partition add up to the size of the map. */
  lemma PartitionArea(lines: seq<string>, regions: seq<Region>, parts: seq<seq<Cell>>)
    requires Rectangular(lines) && Partition(lines, regions, parts)
    ensures TotalArea(regions) == |lines| * (if lines == [] then 0 else |lines[0]|)
  {
    AreaFlatten(regions, parts);
    DistinctCard(Flatten(parts));
    if lines != [] {
      RectCard(|lines|, |lines[0]|);
    }
  }

  /** `solve`: the total price of the regions `flood_fill` finds. */
  method Solve(input: string) returns (total: nat)
    requires Rectangular(NonEmptyLines(Lines(input)))
    ensures exists regions: seq<Region>, parts: seq<seq<Cell>> ::
      Partition(NonEmptyLines(Lines(input)), regions, parts) && total == Price(regions)
  {
    var regions, parts := FloodFill(input);
    total := Price(regions);
  }

  lemma {:induction false} AreaAtLeastCount(regions: seq<Region>)
    requires forall k :: 0 <= k < |regions| ==> regions[k].area >= 1
    ensures TotalArea(regions) >= |regions|
  {
    if regions != [] {
      AreaAtLeastCount(regions[..|regions| - 1]);
    }
  }

  /** All four sides of a lone plot are fence. */
  lemma OnePlotFences(symbol: char)
    requires Rectangular([[symbol]])
    ensures FencesUpTo([[symbol]], (0, 0), 4) == 4
  {
    var lines := [[symbol]];
    assert Neighbour((0, 0), 0) == (0, 1) && Neighbour((0, 0), 1) == (1, 0);
    assert Neighbour((0, 0), 2) == (0, -1) && Neighbour((0, 0), 3) == (-1, 0);
    assert |lines| == 1 && |lines[0]| == 1;
    assert FencesUpTo(lines, (0, 0), 1) == 1;
    assert FencesUpTo(lines, (0, 0), 2) == 2;
    assert FencesUpTo(lines, (0, 0), 3) == 3;
  }

  /** A map of one plot has one region, of area 1 and perimeter 4. */
  lemma OnePlot(symbol: char, regions: seq<Region>, parts: seq<seq<Cell>>)
    requires Rectangular([[symbol]]) && Partition([[symbol]], regions, parts)
    ensures regions == [Region(symbol, 1, 4)] && Price(regions) == 4
  {
    var lines := [[symbol]];
    PartitionArea(lines, regions, parts);
    AreaAtLeastCount(regions);
    assert |regions| == 1;
    assert Flatten(parts) == parts[0] by {
      assert parts[..0] == [];
    }
    var p := parts[0];
    DistinctCard(p);
    assert Elems(p) == {(0, 0)};
    assert p == [(0, 0)] by {
      assert |p| == 1 && p[0] in Elems(p);
    }
    assert SumSides(lines, p) == FencesUpTo(lines, (0, 0), 4) by {
      assert p[..0] == [];
    }
    OnePlotFences(symbol);
    assert Describes(lines, regions[0], parts[0]);
    assert regions[0] == Region(symbol, 1, 4);
  }
}

// Day 12, part two: the price uses the number of sides of each region. A
// region has as many sides as corners, and the corners are counted by looking
// at every 2x2 window of the region-label grid: the window whose lower-right
// cell is (x, y) is centred on the top-left grid point of that cell.
module Day12Ex2 {
  import opened Grid
  import opened Text
  import opened Day12Regions
  import E1 = Day12Ex1

  // ------------------------------------------------------------- windows

  /** `window_coords`: the cell itself, the one to its left, the one above
      and the one above-left. */
  function WindowCoords(p: Cell): (w: seq<Cell>)
    ensures |w| == 4
  {
    [(p.0, p.1), (p.0, p.1 - 1), (p.0 - 1, p.1), (p.0 - 1, p.1 - 1)]
  }

  /** A cell lies in exactly the four windows at itself and one step right,
      down, or both. */
  lemma InWindows(p: Cell, q: Cell)
    ensures p in WindowCoords(q) <==> q in [p, (p.0, p.1 + 1), (p.0 + 1, p.1), (p.0 + 1, p.1 + 1)]
  {
  }

  /** `get_window`: the labels at the window's cells, the default outside. */
  function GetWindow<T>(g: Grid<T>, pos: Cell): (w: seq<T>)
    requires g.Valid()
    ensures |w| == 4 && forall i :: 0 <= i < 4 ==> w[i] == g.Get(WindowCoords(pos)[i].0, WindowCoords(pos)[i].1)
  {
    var cs := WindowCoords(pos);
    [g.Get(cs[0].0, cs[0].1), g.Get(cs[1].0, cs[1].1), g.Get(cs[2].0, cs[2].1), g.Get(cs[3].0, cs[3].1)]
  }

  // ------------------------------------------------------------- corners

  /** The number of cells of `w` labelled `id`. */
  function Count(w: seq<int>, id: int): (n: nat)
    ensures n <= |w|
  {
    if w == [] then 0 else (if w[0] == id then 1 else 0) + Count(w[1..], id)
  }

  lemma {:induction false} CountZero(w: seq<int>, id: int)
    ensures Count(w, id) == 0 <==> id !in w
  {
    if w != [] {
      CountZero(w[1..], id);
      assert w == [w[0]] + w[1..];
    }
  }

  /** `corner_in_window`: a region has one corner at the window's centre if it
      holds one or three of the four cells, two if it holds exactly one
      diagonal, and none otherwise. */
  function CornerInWindow(w: seq<int>, id: int): (r: nat)
    requires |w| == 4
    ensures r <= 2
  {
    var count := Count(w, id);
    if count == 1 then 1
    else if count == 2 && ((w[0] == id && w[3] == id) || (w[1] == id && w[2] == id)) then 2
    else if count == 3 then 1
    else 0
  }

  /** The count of a four-cell window, cell by cell. */
  lemma Count4(w: seq<int>, id: int)
    requires |w| == 4
    ensures Count(w, id) == (if w[0] == id then 1 else 0) + (if w[1] == id then 1 else 0) +
                            (if w[2] == id then 1 else 0) + (if w[3] == id then 1 else 0)
  {
    assert w[1..][1..] == w[2..] && w[2..][1..] == w[3..] && w[3..][1..] == [];
    assert Count(w[3..], id) == if w[3] == id then 1 else 0;
    assert Count(w[2..], id) == (if w[2] == id then 1 else 0) + Count(w[3..], id);
    assert Count(w[1..], id) == (if w[1] == id then 1 else 0) + Count(w[2..], id);
  }

  /** A region that holds none of the window's cells has no corner there. */
  lemma AbsentNoCorner(w: seq<int>, id: int)
    requires |w| == 4 && id !in w
    ensures CornerInWindow(w, id) == 0
  {
    CountZero(w, id);
  }

  /** The corners of the region boundary at the window's centre, read off
      the four boundary segments that meet there: the two between the
      left and right cells of each row and the two between the upper and
      lower cells of each column. Four segments make two corners; two
      segments make one corner when they turn and none when they run
      straight on. */
  function Turns(w: seq<int>, id: int): nat
    requires |w| == 4
  {
    var a, b, c, d := w[0] == id, w[1] == id, w[2] == id, w[3] == id;
    var lower, upper, right, left := a != b, c != d, a != c, b != d;
    var segments := (if lower then 1 else 0) + (if upper then 1 else 0) + (if right then 1 else 0) + (if left then 1 else 0);
    if segments == 4 then 2 else if segments == 2 && lower != upper then 1 else 0
  }

  /** The cell-count rule of `corner_in_window` agrees with the geometric
      count of turns of the boundary. */
  lemma CornerIsTurns(w: seq<int>, id: int)
    requires |w| == 4
    ensures CornerInWindow(w, id) == Turns(w, id)
  {
    Count4(w, id);
  }

  function MirrorColumns(w: seq<int>): seq<int>
    requires |w| == 4
  {
    [w[1], w[0], w[3], w[2]]
  }

  function MirrorRows(w: seq<int>): seq<int>
    requires |w| == 4
  {
    [w[2], w[3], w[0], w[1]]
  }

  function Transpose(w: seq<int>): seq<int>
    requires |w| == 4
  {
    [w[0], w[2], w[1], w[3]]
  }

  /** Reflecting the window left-right, top-bottom or along its diagonal (and
      so every rotation) does not change the number of corners. */
  lemma CornerSymmetric(w: seq<int>, id: int)
    requires |w| == 4
    ensures CornerInWindow(MirrorColumns(w), id) == CornerInWindow(w, id)
    ensures CornerInWindow(MirrorRows(w), id) == CornerInWindow(w, id)
    ensures CornerInWindow(Transpose(w), id) == CornerInWindow(w, id)
  {
    Count4(w, id);
    Count4(MirrorColumns(w), id);
    Count4(MirrorRows(w), id);
    Count4(Transpose(w), id);
  }

  /** A window inside the region, or one the region does not reach, holds
      no corner; a window with exactly one of its cells holds one. */
  lemma CornerCases(w: seq<int>, id: int)
    requires |w| == 4
    ensures Count(w, id) == 4 ==> CornerInWindow(w, id) == 0
    ensures Count(w, id) == 1 ==> CornerInWindow(w, id) == 1
    ensures CornerInWindow(w, id) == 2 <==> (w[0] == id) == (w[3] == id) && (w[1] == id) == (w[2] == id) && (w[0] == id) != (w[1] == id)
  {
    Count4(w, id);
  }

  // ------------------------------------------------------------- labels

  datatype Region = Region(symbol: char, area: nat, corners: nat)

  /** `EMPTY` and `PLACEHOLDER`: cells that belong to no region. */
  predicate Blank(ch: char)
  {
    ch == ' ' || ch == '.'
  }

  /** The label matrix as a value. */
  ghost function Snap(v: array2<int>): (l: seq<seq<int>>)
    reads v
    ensures |l| == v.Length0 && forall i :: 0 <= i < |l| ==> |l[i]| == v.Length1
  {
    seq(v.Length0, i requires 0 <= i < v.Length0 reads v =>
      seq(v.Length1, j requires 0 <= j < v.Length1 reads v => v[i, j]))
  }

  /** The cells carrying label k. */
  ghost function LabelSet(l: seq<seq<int>>, k: int): set<Cell>
  {
    set i: int, j: int | 0 <= i < |l| && 0 <= j < |l[i]| && l[i][j] == k :: (i, j)
  }

  /** The labels after the cells in s are given label id. */
  function Relabel(l: seq<seq<int>>, s: set<Cell>, id: int): (r: seq<seq<int>>)
    ensures |r| == |l| && forall i :: 0 <= i < |l| ==> |r[i]| == |l[i]|
  {
    seq(|l|, i requires 0 <= i < |l| => seq(|l[i]|, j requires 0 <= j < |l[i]| => if (i, j) in s then id else l[i][j]))
  }

  lemma RelabelTwice(l: seq<seq<int>>, a: set<Cell>, b: set<Cell>, id: int)
    ensures Relabel(Relabel(l, a, id), b, id) == Relabel(l, a + b, id)
  {
    var x, y := Relabel(Relabel(l, a, id), b, id), Relabel(l, a + b, id);
    forall i | 0 <= i < |l| ensures x[i] == y[i] {
    }
  }

  lemma RelabelNothing(l: seq<seq<int>>, id: int)
    ensures Relabel(l, {}, id) == l
  {
    var x := Relabel(l, {}, id);
    forall i | 0 <= i < |l| ensures x[i] == l[i] {
    }
  }

  /** Labelling cells with an id takes them out of the unlabelled set. */
  lemma RelabelFree(l: seq<seq<int>>, s: set<Cell>, id: int)
    requires id >= 0
    ensures LabelSet(Relabel(l, s, id), -1) == LabelSet(l, -1) - s
  {
    var r := Relabel(l, s, id);
    forall x | x in LabelSet(l, -1) - s ensures x in LabelSet(r, -1) {
    }
  }

  /** Labelling unlabelled cells with a fresh id takes them out of the
      unlabelled set, gives them that id, and leaves every other label. */
  lemma RelabelSets(l: seq<seq<int>>, s: set<Cell>, id: int)
    requires id >= 0 && s <= LabelSet(l, -1) && LabelSet(l, id) == {}
    ensures LabelSet(Relabel(l, s, id), -1) == LabelSet(l, -1) - s
    ensures LabelSet(Relabel(l, s, id), id) == s
    ensures forall k :: k != id && k != -1 ==> LabelSet(Relabel(l, s, id), k) == LabelSet(l, k)
  {
    var r := Relabel(l, s, id);
    forall k | k != id && k != -1 ensures LabelSet(r, k) == LabelSet(l, k) {
      forall x | x in LabelSet(l, k) ensures x in LabelSet(r, k) {
        assert x !in LabelSet(l, -1);
      }
    }
    forall x | x in s ensures x in LabelSet(r, id) {
      assert x in LabelSet(l, -1);
    }
    forall x | x in LabelSet(r, id) ensures x in s {
      assert x !in LabelSet(l, id);
    }
    RelabelFree(l, s, id);
  }

  /** `visited[row][col] = region_id`. */
  method Label(visited: array2<int>, row: nat, col: nat, id: int)
    requires row < visited.Length0 && col < visited.Length1
    modifies visited
    ensures Snap(visited) == Relabel(old(Snap(visited)), {(row, col)}, id)
  {
    ghost var before := Snap(visited);
    visited[row, col] := id;
    ghost var after, expected := Snap(visited), Relabel(before, {(row, col)}, id);
    forall i | 0 <= i < visited.Length0 ensures after[i] == expected[i] {
      assert |after[i]| == |expected[i]|;
      forall j | 0 <= j < visited.Length1 ensures after[i][j] == expected[i][j] {
      }
    }
  }

  /** The grid is well formed, not empty, and the label matrix has its size. */
  ghost predicate Shape(grid: Grid<char>, v: array2<int>)
  {
    grid.Valid() && E1.Rectangular(grid.data) && grid.height > 0 &&
    v.Length0 == grid.height && v.Length1 == grid.width && |grid.data[0]| == grid.width
  }

  /** `explore_region`: nothing for a labelled plot or one with another
      symbol; otherwise the plot gets the region's id and its in-bounds
      neighbours are explored. The cells that get the id are exactly the
      returned region: connected, without repeats, all of the symbol and
      closed under same-symbol neighbours; its size is the area. */
  method Explore(grid: Grid<char>, visited: array2<int>, id: int, row: nat, col: nat, symbol: char)
      returns (area: nat, ghost region: seq<Cell>)
    requires Shape(grid, visited) && row < grid.height && col < grid.width && id >= 0
    modifies visited
    ensures E1.Explored(grid.data, symbol, LabelSet(old(Snap(visited)), -1), LabelSet(Snap(visited), -1), region)
    ensures Snap(visited) == Relabel(old(Snap(visited)), Elems(region), id)
    ensures area == |region|
    ensures region == [] <==> (row, col) !in LabelSet(old(Snap(visited)), -1) || grid.data[row][col] != symbol
    ensures region != [] ==> region[0] == (row, col)
    decreases |LabelSet(Snap(visited), -1)|, 3
  {
    if visited[row, col] != -1 || grid.Get(row, col) != symbol {
      RelabelNothing(Snap(visited), id);
      assert Snap(visited)[row][col] == visited[row, col];
      assert grid.Get(row, col) == grid.data[row][col];
      assert Elems([]) == {};
      return 0, [];
    }
    assert Snap(visited)[row][col] == visited[row, col];
    area, region := ExploreFrom(grid, visited, id, row, col, symbol);
  }

  /** `explore_region` past its guard. */
  method ExploreFrom(grid: Grid<char>, visited: array2<int>, id: int, row: nat, col: nat, symbol: char)
      returns (area: nat, ghost region: seq<Cell>)
    requires Shape(grid, visited) && row < grid.height && col < grid.width && id >= 0
    requires (row, col) in LabelSet(Snap(visited), -1) && grid.data[row][col] == symbol
    modifies visited
    ensures E1.Explored(grid.data, symbol, LabelSet(old(Snap(visited)), -1), LabelSet(Snap(visited), -1), region)
    ensures Snap(visited) == Relabel(old(Snap(visited)), Elems(region), id)
    ensures area == |region| && region != [] && region[0] == (row, col)
    decreases |LabelSet(Snap(visited), -1)|, 2
  {
    ghost var l0 := Snap(visited);
    ghost var start := LabelSet(l0, -1);
    ghost var c: Cell := (row, col);
    Label(visited, row, col, id);
    RelabelFree(l0, {c}, id);
    E1.PartialStart(grid.data, symbol, start, c);
    assert Elems([c] + []) == {c};
    ghost var rest;
    area, rest := ExploreSides(grid, visited, id, row, col, symbol, start, l0);
    E1.PartialDone(grid.data, symbol, start, LabelSet(Snap(visited), -1), c, rest);
    region := [c] + rest;
  }

  /** The direction loop of `explore_region`, after the plot got its id. */
  method ExploreSides(grid: Grid<char>, visited: array2<int>, id: int, row: nat, col: nat, symbol: char,
                      ghost start: set<Cell>, ghost l0: seq<seq<int>>)
      returns (area: nat, ghost rest: seq<Cell>)
    requires Shape(grid, visited) && row < grid.height && col < grid.width && id >= 0
    requires E1.Partial(grid.data, symbol, start, LabelSet(Snap(visited), -1), (row, col), [], 0)
    requires Snap(visited) == Relabel(l0, Elems([(row, col)] + []), id)
    modifies visited
    ensures E1.Partial(grid.data, symbol, start, LabelSet(Snap(visited), -1), (row, col), rest, 4)
    ensures Snap(visited) == Relabel(l0, Elems([(row, col)] + rest), id)
    ensures area == 1 + |rest|
    decreases |start|, 1
  {
    area, rest := 1, [];
    var k: nat := 0;
    while k < 4
      invariant k <= 4
      invariant E1.Partial(grid.data, symbol, start, LabelSet(Snap(visited), -1), (row, col), rest, k)
      invariant Snap(visited) == Relabel(l0, Elems([(row, col)] + rest), id)
      invariant area == 1 + |rest|
      decreases 4 - k
    {
      var sideArea, sub := ExploreSide(grid, visited, id, row, col, k, symbol, start, l0, rest);
      area := area + sideArea;
      rest := rest + sub;
      k := k + 1;
    }
  }

  /** One direction: an in-bounds neighbour is explored, which adds nothing
      when it has another symbol or is labelled already. */
  method ExploreSide(grid: Grid<char>, visited: array2<int>, id: int, row: nat, col: nat, k: nat, symbol: char,
                     ghost start: set<Cell>, ghost l0: seq<seq<int>>, ghost rest: seq<Cell>)
      returns (area: nat, ghost sub: seq<Cell>)
    requires Shape(grid, visited) && row < grid.height && col < grid.width && id >= 0 && k < 4
    requires E1.Partial(grid.data, symbol, start, LabelSet(Snap(visited), -1), (row, col), rest, k)
    requires Snap(visited) == Relabel(l0, Elems([(row, col)] + rest), id)
    modifies visited
    ensures E1.Partial(grid.data, symbol, start, LabelSet(Snap(visited), -1), (row, col), rest + sub, k + 1)
    ensures Snap(visited) == Relabel(l0, Elems([(row, col)] + (rest + sub)), id)
    ensures area == |sub|
    decreases |start|, 0
  {
    ghost var c: Cell := (row, col);
    var n := Neighbour((row, col), k);
    ghost var before := LabelSet(Snap(visited), -1);
    ghost var snap := Snap(visited);
    if !grid.InBounds(n.0, n.1) {
      E1.PartialFence(grid.data, symbol, start, before, c, rest, k);
      assert rest + [] == rest;
      return 0, [];
    }
    E1.PartialSmaller(grid.data, symbol, start, before, c, rest, k);
    area, sub := Explore(grid, visited, id, n.0, n.1, symbol);
    if grid.data[n.0][n.1] != symbol {
      E1.PartialFence(grid.data, symbol, start, before, c, rest, k);
      assert rest + sub == rest;
    } else {
      E1.PartialExplore(grid.data, symbol, start, before, LabelSet(Snap(visited), -1), c, rest, k, sub);
    }
    LabelsGrow(l0, snap, Snap(visited), c, rest, sub, id);
  }

  lemma LabelsGrow(l0: seq<seq<int>>, l1: seq<seq<int>>, l2: seq<seq<int>>, c: Cell, rest: seq<Cell>, sub: seq<Cell>, id: int)
    requires l1 == Relabel(l0, Elems([c] + rest), id) && l2 == Relabel(l1, Elems(sub), id)
    ensures l2 == Relabel(l0, Elems([c] + (rest + sub)), id)
  {
    RelabelTwice(l0, Elems([c] + rest), Elems(sub), id);
    ElemsAppend([c] + rest, sub);
    assert [c] + (rest + sub) == ([c] + rest) + sub;
  }

  // ------------------------------------------------------------- flood fill

  /** r is the region with the cells in part: a non-empty connected and
      maximal set of plots of r's symbol, which is not blank, with r's area
      and no corners counted yet. */
  ghost predicate Describes(lines: seq<string>, r: Region, part: seq<Cell>)
    requires E1.Rectangular(lines)
  {
    part != [] && E1.AllIn(lines, part) && Distinct(part) && Connected(part) &&
    (forall m :: 0 <= m < |part| ==> E1.At(lines, part[m]) == r.symbol) && !Blank(r.symbol) &&
    E1.Maximal(lines, part) && r.area == |part| && r.corners == 0
  }

  /** Every label is -1 or the index of a region. */
  ghost predicate LabelsBelow(l: seq<seq<int>>, n: int)
  {
    forall i, j :: 0 <= i < |l| && 0 <= j < |l[i]| ==> -1 <= l[i][j] < n
  }

  /** Blank cells carry no label. */
  ghost predicate BlanksUnlabelled(lines: seq<string>, l: seq<seq<int>>)
    requires |l| <= |lines| && forall i :: 0 <= i < |l| ==> |l[i]| <= |lines[i]|
  {
    forall i, j :: 0 <= i < |l| && 0 <= j < |l[i]| && Blank(lines[i][j]) ==> l[i][j] == -1
  }

  ghost predicate SameSize(lines: seq<string>, l: seq<seq<int>>)
    requires E1.Rectangular(lines)
  {
    lines != [] && |l| == |lines| && forall i :: 0 <= i < |l| ==> |l[i]| == |lines[0]|
  }

  /** The state of `flood_fill` between two explorations. */
  ghost predicate Filling(lines: seq<string>, l: seq<seq<int>>, regions: seq<Region>, parts: seq<seq<Cell>>, done: seq<Cell>)
    requires E1.Rectangular(lines)
  {
    var u := LabelSet(l, -1);
    SameSize(lines, l) && u <= E1.Cells(lines) && done == Flatten(parts) && E1.AllIn(lines, done) &&
    Elems(done) == E1.Cells(lines) - u && Distinct(done) && E1.AllClosed(lines, u, done) &&
    |regions| == |parts| &&
    (forall k :: 0 <= k < |parts| ==> Describes(lines, regions[k], parts[k]) && LabelSet(l, k) == Elems(parts[k])) &&
    LabelsBelow(l, |parts|) && BlanksUnlabelled(lines, l)
  }

  lemma FillStart(lines: seq<string>, l: seq<seq<int>>)
    requires E1.Rectangular(lines) && SameSize(lines, l)
    requires forall i, j :: 0 <= i < |l| && 0 <= j < |l[i]| ==> l[i][j] == -1
    ensures Filling(lines, l, [], [], [])
  {
    assert LabelSet(l, -1) == E1.Cells(lines);
  }

  /** The labels after a new region got the next id. */
  lemma LabelsStep(lines: seq<string>, l0: seq<seq<int>>, parts: seq<seq<Cell>>, symbol: char, part: seq<Cell>)
    requires E1.Rectangular(lines) && SameSize(lines, l0) && LabelsBelow(l0, |parts|) && BlanksUnlabelled(lines, l0)
    requires Elems(part) <= LabelSet(l0, -1) && E1.AllIn(lines, part) && !Blank(symbol)
    requires forall m :: 0 <= m < |part| ==> E1.At(lines, part[m]) == symbol
    ensures var l1 := Relabel(l0, Elems(part), |parts|);
      SameSize(lines, l1) && LabelsBelow(l1, |parts| + 1) && BlanksUnlabelled(lines, l1) &&
      LabelSet(l1, -1) == LabelSet(l0, -1) - Elems(part) && LabelSet(l1, |parts|) == Elems(part) &&
      forall k :: 0 <= k < |parts| ==> LabelSet(l1, k) == LabelSet(l0, k)
  {
    var l1 := Relabel(l0, Elems(part), |parts|);
    assert LabelSet(l0, |parts|) == {};
    RelabelSets(l0, Elems(part), |parts|);
  }

  lemma DescribesStep(lines: seq<string>, regions: seq<Region>, parts: seq<seq<Cell>>, l0: seq<seq<int>>, l1: seq<seq<int>>,
                      r: Region, part: seq<Cell>)
    requires E1.Rectangular(lines) && |regions| == |parts| && Describes(lines, r, part)
    requires forall k :: 0 <= k < |parts| ==> Describes(lines, regions[k], parts[k]) && LabelSet(l0, k) == Elems(parts[k])
    requires forall k :: 0 <= k < |parts| ==> LabelSet(l1, k) == LabelSet(l0, k)
    requires LabelSet(l1, |parts|) == Elems(part)
    ensures forall k :: 0 <= k < |parts| + 1 ==>
      Describes(lines, (regions + [r])[k], (parts + [part])[k]) && LabelSet(l1, k) == Elems((parts + [part])[k])
  {
    var rs, ps := regions + [r], parts + [part];
    forall k | 0 <= k < |ps| ensures Describes(lines, rs[k], ps[k]) && LabelSet(l1, k) == Elems(ps[k]) {
      if k < |parts| {
        assert rs[k] == regions[k] && ps[k] == parts[k];
      }
    }
  }

  /** Recording the region an exploration labelled keeps the fill's state. */
  lemma FillStep(lines: seq<string>, l0: seq<seq<int>>, l1: seq<seq<int>>, regions: seq<Region>, parts: seq<seq<Cell>>,
                 done: seq<Cell>, r: Region, part: seq<Cell>)
    requires E1.Rectangular(lines) && Filling(lines, l0, regions, parts, done)
    requires E1.Explored(lines, r.symbol, LabelSet(l0, -1), LabelSet(l1, -1), part) && part != []
    requires l1 == Relabel(l0, Elems(part), |parts|)
    requires r.area == |part| && r.corners == 0 && !Blank(r.symbol)
    ensures Filling(lines, l1, regions + [r], parts + [part], done + part)
  {
    var u0, u1 := LabelSet(l0, -1), LabelSet(l1, -1);
    E1.NewRegionMaximal(lines, u0, u1, done, r.symbol, part);
    FlattenSnoc(parts, part);
    DistinctAppend(done, part);
    E1.ClosedAppend(lines, u0, u1, done, part);
    LabelsStep(lines, l0, parts, r.symbol, part);
    DescribesStep(lines, regions, parts, l0, l1, r, part);
  }

  /** The scan has passed (i, j): every unlabelled cell before it is blank. */
  ghost predicate Scanned(lines: seq<string>, l: seq<seq<int>>, i: int, j: int)
    requires E1.Rectangular(lines)
  {
    forall x :: x in LabelSet(l, -1) ==>
      x.0 > i || (x.0 == i && x.1 >= j) || (E1.InGrid(lines, x) && Blank(E1.At(lines, x)))
  }

  /** One plot of the scan in `flood_fill`: an unlabelled plot that is not
      blank starts a region with the next id (`region_index`, which always
      equals the number of regions pushed). */
  method FillCell(grid: Grid<char>, visited: array2<int>, i: nat, j: nat, regions0: seq<Region>,
                  ghost parts0: seq<seq<Cell>>, ghost done0: seq<Cell>)
      returns (regions: seq<Region>, ghost parts: seq<seq<Cell>>, ghost done: seq<Cell>)
    requires Shape(grid, visited) && i < grid.height && j < grid.width
    requires Filling(grid.data, Snap(visited), regions0, parts0, done0)
    requires Scanned(grid.data, Snap(visited), i, j)
    modifies visited
    ensures Filling(grid.data, Snap(visited), regions, parts, done)
    ensures Scanned(grid.data, Snap(visited), i, j + 1)
  {
    regions, parts, done := regions0, parts0, done0;
    ghost var l0 := Snap(visited);
    var symbol := grid.Get(i, j);
    if visited[i, j] == -1 && symbol != ' ' && symbol != '.' {
      assert l0[i][j] == visited[i, j];
      var area, region := Explore(grid, visited, |regions|, i, j, symbol);
      FillStep(grid.data, l0, Snap(visited), regions, parts, done, Region(symbol, area, 0), region);
      regions := regions + [Region(symbol, area, 0)];
      parts := parts + [region];
      done := done + region;
      assert (i, j) in Elems(region);
    } else {
      assert l0[i][j] == visited[i, j];
    }
  }

  /** One row of the scan in `flood_fill`. */
  method FillRow(grid: Grid<char>, visited: array2<int>, i: nat, regions0: seq<Region>,
                 ghost parts0: seq<seq<Cell>>, ghost done0: seq<Cell>)
      returns (regions: seq<Region>, ghost parts: seq<seq<Cell>>, ghost done: seq<Cell>)
    requires Shape(grid, visited) && i < grid.height
    requires Filling(grid.data, Snap(visited), regions0, parts0, done0)
    requires Scanned(grid.data, Snap(visited), i, 0)
    modifies visited
    ensures Filling(grid.data, Snap(visited), regions, parts, done)
    ensures Scanned(grid.data, Snap(visited), i + 1, 0)
  {
    regions, parts, done := regions0, parts0, done0;
    var j := 0;
    while j < grid.width
      invariant 0 <= j <= grid.width
      invariant Filling(grid.data, Snap(visited), regions, parts, done)
      invariant Scanned(grid.data, Snap(visited), i, j)
    {
      regions, parts, done := FillCell(grid, visited, i, j, regions, parts, done);
      j := j + 1;
    }
  }

  /** What `flood_fill` returns: the label grid has the map's size (no
      columns when there are no rows) and -1 outside it; a cell is unlabelled exactly when it is blank, and every
      label is the index of a region, whose cells are exactly those with its
      label. */
  ghost predicate Labelling(grid: Grid<char>, regions: seq<Region>, labels: Grid<int>, parts: seq<seq<Cell>>)
  {
    grid.Valid() && E1.Rectangular(grid.data) && labels.Valid() &&
    labels.height == grid.height && (grid.height > 0 ==> labels.width == grid.width) && labels.default == -1 &&
    |parts| == |regions| &&
    (forall i, j :: 0 <= i < grid.height && 0 <= j < grid.width ==>
      (labels.data[i][j] == -1 <==> Blank(grid.data[i][j])) && -1 <= labels.data[i][j] < |regions|) &&
    (forall k :: 0 <= k < |parts| ==> Describes(grid.data, regions[k], parts[k]) && LabelSet(labels.data, k) == Elems(parts[k]))
  }

  /** Once the scan is complete only blank cells are unlabelled. */
  lemma FillDone(grid: Grid<char>, l: seq<seq<int>>, regions: seq<Region>, parts: seq<seq<Cell>>, done: seq<Cell>)
    requires grid.Valid() && E1.Rectangular(grid.data) && grid.height > 0 && |grid.data[0]| == grid.width
    requires Filling(grid.data, l, regions, parts, done) && Scanned(grid.data, l, grid.height, 0)
    ensures Labelling(grid, regions, New(l, -1), parts)
  {
    var lines := grid.data;
    forall i, j | 0 <= i < grid.height && 0 <= j < grid.width
      ensures l[i][j] == -1 <==> Blank(lines[i][j])
    {
      if l[i][j] == -1 {
        assert (i, j) in LabelSet(l, -1);
      }
    }
  }

  /** `flood_fill`: scans the map row by row and explores every blank-free
      unlabelled plot with the next region id. */
  method FloodFill(grid: Grid<char>) returns (regions: seq<Region>, labels: Grid<int>, ghost parts: seq<seq<Cell>>)
    requires grid.Valid()
    ensures Labelling(grid, regions, labels, parts)
  {
    if grid.height == 0 {
      return [], New([], -1), [];
    }
    assert |grid.data[0]| == grid.width;
    var visited := new int[grid.height, grid.width]((i, j) => -1);
    FillStart(grid.data, Snap(visited));
    regions, parts := [], [];
    ghost var done: seq<Cell> := [];
    var r := 0;
    while r < grid.height
      invariant 0 <= r <= grid.height
      invariant Filling(grid.data, Snap(visited), regions, parts, done)
      invariant Scanned(grid.data, Snap(visited), r, 0)
    {
      regions, parts, done := FillRow(grid, visited, r, regions, parts, done);
      r := r + 1;
    }
    var rows := seq(visited.Length0, i requires 0 <= i < visited.Length0 reads visited =>
      seq(visited.Length1, j requires 0 <= j < visited.Length1 reads visited => visited[i, j]));
    assert rows == Snap(visited);
    FillDone(grid, rows, regions, parts, done);
    labels := New(rows, -1);
  }

  // ------------------------------------------------------------- corners of every region

  /** The corners of region k in the windows (r, 0) .. (r, c - 1). */
  function RowCorners(labels: Grid<int>, k: int, r: int, c: nat): nat
    requires labels.Valid()
  {
    if c == 0 then 0 else RowCorners(labels, k, r, c - 1) + CornerInWindow(GetWindow(labels, (r, c - 1)), k)
  }

  /** The corners of region k in the window rows 0 .. r - 1, each of the
      window columns 0 .. width. */
  function GridCorners(labels: Grid<int>, k: int, r: nat): nat
    requires labels.Valid()
  {
    if r == 0 then 0 else GridCorners(labels, k, r - 1) + RowCorners(labels, k, r - 1, labels.width + 1)
  }

  /** The corners of region k: over every window whose centre is a grid
      point of the map, the windows (0, 0) .. (height, width). */
  function Corners(labels: Grid<int>, k: int): nat
    requires labels.Valid()
  {
    GridCorners(labels, k, labels.height + 1)
  }

  /** `region.corners += n`, skipped for a region of a blank symbol. */
  function AddCorners(region: Region, n: nat): Region
  {
    if Blank(region.symbol) then region else region.(corners := region.corners + n)
  }

  lemma AddCornersTwice(region: Region, a: nat, b: nat)
    ensures AddCorners(AddCorners(region, a), b) == AddCorners(region, a + b)
    ensures AddCorners(region, 0) == region
  {
  }

  /** Every label is -1 or a region index. */
  ghost predicate Indices(labels: Grid<int>, n: nat)
    requires labels.Valid()
  {
    labels.default == -1 &&
    forall i, j :: 0 <= i < labels.height && 0 <= j < labels.width ==> -1 <= labels.data[i][j] < n
  }

  /** The window of a label grid holds -1 or region indices. */
  lemma WindowIndices(labels: Grid<int>, n: nat, pos: Cell)
    requires labels.Valid() && Indices(labels, n)
    ensures forall i :: 0 <= i < 4 ==> GetWindow(labels, pos)[i] == -1 || 0 <= GetWindow(labels, pos)[i] < n
  {
    var w := GetWindow(labels, pos);
    forall i | 0 <= i < 4 ensures w[i] == -1 || 0 <= w[i] < n {
      var p := WindowCoords(pos)[i];
      if labels.InBounds(p.0, p.1) {
        assert w[i] == labels.data[p.0][p.1];
      }
    }
  }

  /** The regions after one window: each gets that window's corners. */
  function AfterWindow(w: seq<int>, rs: seq<Region>): (after: seq<Region>)
    requires |w| == 4
    ensures |after| == |rs|
  {
    seq(|rs|, k requires 0 <= k < |rs| => AddCorners(rs[k], CornerInWindow(w, k)))
  }

  /** The regions with the corners of the windows (r, 0) .. (r, c - 1) added. */
  function RowAdded(labels: Grid<int>, r: int, c: nat, rs: seq<Region>): (after: seq<Region>)
    requires labels.Valid()
    ensures |after| == |rs|
  {
    seq(|rs|, k requires 0 <= k < |rs| => AddCorners(rs[k], RowCorners(labels, k, r, c)))
  }

  /** The regions with the corners of the window rows 0 .. r - 1 added. */
  function GridAdded(labels: Grid<int>, r: nat, rs: seq<Region>): (after: seq<Region>)
    requires labels.Valid()
    ensures |after| == |rs|
  {
    seq(|rs|, k requires 0 <= k < |rs| => AddCorners(rs[k], GridCorners(labels, k, r)))
  }

  lemma NothingAdded(labels: Grid<int>, r: int, rs: seq<Region>)
    requires labels.Valid()
    ensures RowAdded(labels, r, 0, rs) == rs && GridAdded(labels, 0, rs) == rs
  {
    forall k | 0 <= k < |rs| ensures AddCorners(rs[k], 0) == rs[k] {
      AddCornersTwice(rs[k], 0, 0);
    }
  }

  /** One more window of the row adds its corners. */
  lemma RowAddedStep(labels: Grid<int>, r: int, c: nat, rs: seq<Region>)
    requires labels.Valid()
    ensures AfterWindow(GetWindow(labels, (r, c)), RowAdded(labels, r, c, rs)) == RowAdded(labels, r, c + 1, rs)
  {
    var w := GetWindow(labels, (r, c));
    var before, after := RowAdded(labels, r, c, rs), RowAdded(labels, r, c + 1, rs);
    var stepped := AfterWindow(w, before);
    forall k | 0 <= k < |rs| ensures stepped[k] == after[k] {
      var a, b := RowCorners(labels, k, r, c), CornerInWindow(w, k);
      assert RowCorners(labels, k, r, c + 1) == a + b;
      AddCornersTwice(rs[k], a, b);
    }
  }

  /** One more window row adds the corners of its windows. */
  lemma GridAddedStep(labels: Grid<int>, r: nat, rs: seq<Region>)
    requires labels.Valid()
    ensures RowAdded(labels, r, labels.width + 1, GridAdded(labels, r, rs)) == GridAdded(labels, r + 1, rs)
  {
    var before, after := GridAdded(labels, r, rs), GridAdded(labels, r + 1, rs);
    var row := RowAdded(labels, r, labels.width + 1, before);
    forall k | 0 <= k < |rs| ensures row[k] == after[k] {
      var a, b := GridCorners(labels, k, r), RowCorners(labels, k, r, labels.width + 1);
      assert GridCorners(labels, k, r + 1) == a + b;
      AddCornersTwice(rs[k], a, b);
    }
  }

  /** One window of `solve`: every region id in it, except -1, gets the
      window's corners. */
  method CountWindow(window: seq<int>, regions0: seq<Region>) returns (regions: seq<Region>)
    requires |window| == 4 && forall i :: 0 <= i < 4 ==> window[i] == -1 || 0 <= window[i] < |regions0|
    ensures regions == AfterWindow(window, regions0)
  {
    var unique := set x | x in window && x != -1;
    regions := regions0;
    var todo := unique;
    while todo != {}
      invariant todo <= unique && |regions| == |regions0|
      invariant forall k :: 0 <= k < |regions| ==>
        regions[k] == if k in unique && k !in todo then AddCorners(regions0[k], CornerInWindow(window, k)) else regions0[k]
      decreases |todo|
    {
      var id :| id in todo;
      var region := regions[id];
      if !(region.symbol == ' ' || region.symbol == '.') {
        regions := regions[id := region.(corners := region.corners + CornerInWindow(window, id))];
      }
      todo := todo - {id};
    }
    forall k | 0 <= k < |regions| ensures regions[k] == AfterWindow(window, regions0)[k] {
      if k !in window {
        AbsentNoCorner(window, k);
        AddCornersTwice(regions0[k], 0, 0);
      }
    }
  }

  /** The window at (r, c) of `solve`. */
  method CountAt(labels: Grid<int>, r: int, c: nat, regions0: seq<Region>, before: seq<Region>) returns (regions: seq<Region>)
    requires labels.Valid() && Indices(labels, |regions0|) && before == RowAdded(labels, r, c, regions0)
    ensures regions == RowAdded(labels, r, c + 1, regions0)
  {
    var window := GetWindow(labels, (r, c));
    WindowIndices(labels, |regions0|, (r, c));
    RowAddedStep(labels, r, c, regions0);
    regions := CountWindow(window, before);
  }

  /** One window row of `solve`. */
  method CountRow(labels: Grid<int>, r: nat, regions0: seq<Region>) returns (regions: seq<Region>)
    requires labels.Valid() && Indices(labels, |regions0|)
    ensures regions == RowAdded(labels, r, labels.width + 1, regions0)
  {
    regions := regions0;
    var c := 0;
    NothingAdded(labels, r, regions0);
    while c <= labels.width
      invariant 0 <= c <= labels.width + 1 && regions == RowAdded(labels, r, c, regions0)
    {
      regions := CountAt(labels, r, c, regions0, regions);
      c := c + 1;
    }
  }

  /** The window loops of `solve`: every region gets its corners. */
  method CountCorners(labels: Grid<int>, regions0: seq<Region>) returns (regions: seq<Region>)
    requires labels.Valid() && Indices(labels, |regions0|)
    ensures |regions| == |regions0|
    ensures forall k :: 0 <= k < |regions| ==> regions[k] == AddCorners(regions0[k], Corners(labels, k))
  {
    regions := regions0;
    var r := 0;
    NothingAdded(labels, 0, regions0);
    while r <= labels.height
      invariant 0 <= r <= labels.height + 1 && regions == GridAdded(labels, r, regions0)
    {
      GridAddedStep(labels, r, regions0);
      regions := CountRow(labels, r, regions);
      r := r + 1;
    }
  }

  // ------------------------------------------------------------- solve

  /** The map rows of `solve`: the non-empty input lines, each trimmed. */
  function RowsOf(input: string): (rows: seq<string>)
    ensures |rows| == |E1.NonEmptyLines(Lines(input))|
    ensures forall i :: 0 <= i < |rows| ==> rows[i] == Trim(E1.NonEmptyLines(Lines(input))[i])
  {
    var lines := E1.NonEmptyLines(Lines(input));
    seq(|lines|, i requires 0 <= i < |lines| => Trim(lines[i]))
  }

  /** `regions.iter().map(|r| r.area * r.corners).sum()`. */
  function Price(regions: seq<Region>): nat
  {
    if regions == [] then 0 else Price(regions[..|regions| - 1]) + regions[|regions| - 1].area * regions[|regions| - 1].corners
  }

  /** The price of the first n regions of a label grid: area times the
      number of corners of the region's label. */
  function SidesPrice(regions: seq<Region>, labels: Grid<int>, n: nat): nat
    requires labels.Valid() && n <= |regions|
  {
    if n == 0 then 0 else SidesPrice(regions, labels, n - 1) + regions[n - 1].area * Corners(labels, n - 1)
  }

  /** Regions of no blank symbol and no corners yet, given their corners,
      cost their area times their number of corners. */
  lemma {:induction false} PriceCounted(regions0: seq<Region>, regions: seq<Region>, labels: Grid<int>, n: nat)
    requires labels.Valid() && n <= |regions0| == |regions|
    requires forall k :: 0 <= k < |regions0| ==> !Blank(regions0[k].symbol) && regions0[k].corners == 0
    requires forall k :: 0 <= k < |regions| ==> regions[k] == AddCorners(regions0[k], Corners(labels, k))
    ensures Price(regions[..n]) == SidesPrice(regions0, labels, n)
  {
    if n > 0 {
      PriceCounted(regions0, regions, labels, n - 1);
      assert regions[..n][..n - 1] == regions[..n - 1];
    }
  }

  /** A flood fill's labels are -1 or region indices. */
  lemma LabellingIndices(grid: Grid<char>, regions: seq<Region>, labels: Grid<int>, parts: seq<seq<Cell>>)
    requires Labelling(grid, regions, labels, parts)
    ensures Indices(labels, |regions|)
  {
  }

  /** `solve`: every region of the map, priced by area times corners. */
  method Solve(input: string) returns (total: nat)
    requires New(RowsOf(input), ' ').Valid()
    ensures exists regions: seq<Region>, labels: Grid<int>, parts: seq<seq<Cell>> ::
      Labelling(New(RowsOf(input), ' '), regions, labels, parts) && total == SidesPrice(regions, labels, |regions|)
  {
    var grid := New(RowsOf(input), ' ');
    var regions0, labels, parts := FloodFill(grid);
    LabellingIndices(grid, regions0, labels, parts);
    var regions := CountCorners(labels, regions0);
    total := Price(regions);
    PriceCounted(regions0, regions, labels, |regions0|);
    assert regions[..|regions|] == regions;
  }
}

// Day 12, shared by both parts: grid positions, the four neighbours the
// flood fills visit in the order right, down, left, up, and what it means for
// a list of cells to be a connected region.
module Day12Regions {
  type Cell = (int, int)

  /** The offsets `(dr, dc)` the explorers try, in order. */
  const Dirs: seq<(int, int)> := [(0, 1), (1, 0), (0, -1), (-1, 0)]

  function Neighbour(c: Cell, k: nat): Cell
    requires k < 4
  {
    (c.0 + Dirs[k].0, c.1 + Dirs[k].1)
  }

  function Abs(x: int): nat
  {
    if x < 0 then -x else x
  }

  predicate Adjacent(a: Cell, b: Cell)
  {
    Abs(a.0 - b.0) + Abs(a.1 - b.1) == 1
  }

  /** The four offsets are exactly the adjacent cells. */
  lemma NeighboursAdjacent(c: Cell, d: Cell)
    ensures Adjacent(c, d) <==> exists k :: 0 <= k < 4 && d == Neighbour(c, k)
  {
    if Adjacent(c, d) {
      if d.0 == c.0 && d.1 == c.1 + 1 {
        assert d == Neighbour(c, 0);
      } else if d.0 == c.0 + 1 {
        assert d == Neighbour(c, 1);
      } else if d.0 == c.0 {
        assert d == Neighbour(c, 2);
      } else {
        assert d == Neighbour(c, 3);
      }
    }
  }

  /** Stepping in direction d and then in the opposite direction returns. */
  lemma Opposite(c: Cell, d: nat)
    requires d < 4
    ensures Neighbour(Neighbour(c, d), (d + 2) % 4) == c
  {
  }

  lemma AdjacentSymmetric(a: Cell, b: Cell)
    ensures Adjacent(a, b) <==> Adjacent(b, a)
  {
  }

  ghost predicate Distinct(s: seq<Cell>)
  {
    forall i, j :: 0 <= i < j < |s| ==> s[i] != s[j]
  }

  function Elems(s: seq<Cell>): set<Cell>
  {
    set x | x in s
  }

  /** Cell k is next to an earlier cell of the list. */
  ghost predicate LinkedAt(s: seq<Cell>, k: nat)
    requires k < |s|
  {
    exists m :: 0 <= m < k && Adjacent(s[m], s[k])
  }

  /** Every cell after the first is next to an earlier one, so the cells form
      one connected piece in the order they were reached. */
  ghost predicate Connected(s: seq<Cell>)
  {
    forall k :: 0 < k < |s| ==> LinkedAt(s, k)
  }

  lemma ConnectedAppend(a: seq<Cell>, b: seq<Cell>)
    requires Connected(a) && Connected(b)
    requires b != [] ==> exists m :: 0 <= m < |a| && Adjacent(a[m], b[0])
    ensures Connected(a + b)
  {
    var s := a + b;
    forall k | 0 < k < |s| ensures LinkedAt(s, k) {
      if k < |a| {
        assert LinkedAt(a, k);
        var m :| 0 <= m < k && Adjacent(a[m], a[k]);
        assert s[m] == a[m] && s[k] == a[k];
      } else if k == |a| {
        var m :| 0 <= m < |a| && Adjacent(a[m], b[0]);
        assert s[m] == a[m] && s[k] == b[0];
      } else {
        assert LinkedAt(b, k - |a|);
        var m :| 0 <= m < k - |a| && Adjacent(b[m], b[k - |a|]);
        assert s[|a| + m] == b[m] && s[k] == b[k - |a|];
      }
    }
  }

  lemma DistinctAppend(a: seq<Cell>, b: seq<Cell>)
    requires Distinct(a) && Distinct(b) && Elems(a) !! Elems(b)
    ensures Distinct(a + b) && Elems(a + b) == Elems(a) + Elems(b)
  {
    var s := a + b;
    forall i, j | 0 <= i < j < |s| ensures s[i] != s[j] {
      if j >= |a| && i < |a| {
        assert s[i] in Elems(a) && s[j] in Elems(b);
      } else if i >= |a| {
        assert s[i] == b[i - |a|] && s[j] == b[j - |a|];
      }
    }
  }

  lemma ElemsAppend(a: seq<Cell>, b: seq<Cell>)
    ensures Elems(a + b) == Elems(a) + Elems(b)
  {
    forall x | x in Elems(a + b) ensures x in Elems(a) + Elems(b) {
      var i :| 0 <= i < |a + b| && (a + b)[i] == x;
      if i >= |a| {
        assert b[i - |a|] == x;
      }
    }
  }

  /** A list without repeats has as many elements as cells. */
  lemma {:induction false} DistinctCard(s: seq<Cell>)
    requires Distinct(s)
    ensures |Elems(s)| == |s|
  {
    if s != [] {
      var t := s[..|s| - 1];
      assert Distinct(t);
      DistinctCard(t);
      assert Elems(s) == Elems(t) + {s[|s| - 1]};
      assert s[|s| - 1] !in Elems(t);
    }
  }

  /** The cells of a rows x cols grid. */
  function Rect(rows: nat, cols: nat): set<Cell>
  {
    set i: int, j: int | 0 <= i < rows && 0 <= j < cols :: (i, j)
  }

  function RowSet(i: int, cols: nat): set<Cell>
  {
    set j: int | 0 <= j < cols :: (i, j)
  }

  lemma {:induction false} RowSetCard(i: int, cols: nat)
    ensures |RowSet(i, cols)| == cols
  {
    if cols > 0 {
      RowSetCard(i, cols - 1);
      assert RowSet(i, cols) == RowSet(i, cols - 1) + {(i, cols - 1)};
    }
  }

  lemma {:induction false} RectCard(rows: nat, cols: nat)
    ensures |Rect(rows, cols)| == rows * cols
  {
    if rows > 0 {
      RectCard(rows - 1, cols);
      RowSetCard(rows - 1, cols);
      assert Rect(rows, cols) == Rect(rows - 1, cols) + RowSet(rows - 1, cols);
      assert Rect(rows - 1, cols) !! RowSet(rows - 1, cols);
      assert (rows - 1) * cols + cols == rows * cols;
    }
  }

  function Flatten(parts: seq<seq<Cell>>): seq<Cell>
  {
    if parts == [] then [] else Flatten(parts[..|parts| - 1]) + parts[|parts| - 1]
  }

  lemma FlattenSnoc(parts: seq<seq<Cell>>, p: seq<Cell>)
    ensures Flatten(parts + [p]) == Flatten(parts) + p
  {
    assert (parts + [p])[..|parts|] == parts;
  }

  lemma {:induction false} FlattenHas(parts: seq<seq<Cell>>, k: nat, c: Cell)
    requires k < |parts| && c in parts[k]
    ensures c in Flatten(parts)
  {
    if k < |parts| - 1 {
      FlattenHas(parts[..|parts| - 1], k, c);
    }
  }

  /** Each cell of the flattened list comes from one of the parts. */
  lemma {:induction false} FlattenFrom(parts: seq<seq<Cell>>, c: Cell) returns (k: nat)
    requires c in Flatten(parts)
    ensures k < |parts| && c in parts[k]
  {
    var init := parts[..|parts| - 1];
    if c in Flatten(init) {
      k := FlattenFrom(init, c);
    } else {
      k := |parts| - 1;
    }
  }
}

// The bounded grid of day 8: rows of cells with a width taken from the first
// row and a default value returned for every position outside the grid.
module Grid {

  datatype Grid<T> = Grid(data: seq<seq<T>>, width: nat, height: nat, default: T)
  {
    /** Every row is exactly `width` long. */
    ghost predicate Valid()
    {
      height == |data| && forall r :: 0 <= r < |data| ==> |data[r]| == width
    }

    /** `in_bounds`, on signed (`isize`) coordinates. */
    predicate InBounds(row: int, col: int)
    {
      0 <= row < height && 0 <= col < width
    }

    /** `get`: the default outside the grid, the stored cell inside it. */
    function Get(row: int, col: int): (t: T)
      requires Valid()
      ensures !InBounds(row, col) ==> t == default
      ensures InBounds(row, col) ==> t == data[row][col]
    {
      if !InBounds(row, col) then default else data[row][col]
    }

    /** `cells`: row by row, every position with its value. */
    function Cells(): (r: seq<(int, int, T)>)
      requires Valid()
      ensures |r| == height * width
    {
      CellsFromLength(this, 0);
      CellsFrom(0)
    }

    function CellsFrom(row: nat): (r: seq<(int, int, T)>)
      requires Valid() && row <= height
      decreases height - row
    {
      if row == height then [] else RowCells(row, 0) + CellsFrom(row + 1)
    }

    function RowCells(row: nat, col: nat): (r: seq<(int, int, T)>)
      requires Valid() && row < height && col <= width
      ensures |r| == width - col
      ensures forall c :: col <= c < width ==> r[c - col] == (row, c, data[row][c])
      decreases width - col
    {
      if col == width then [] else [(row, col, data[row][col])] + RowCells(row, col + 1)
    }
  }

  /** `Grid::new`: the height is the number of rows, the width that of the
      first row, or 0 when there are no rows. */
  function New<T>(data: seq<seq<T>>, default: T): (g: Grid<T>)
    ensures g.data == data && g.default == default
    ensures g.height == |data|
    ensures g.width == if |data| > 0 then |data[0]| else 0
  {
    Grid(data, if |data| > 0 then |data[0]| else 0, |data|, default)
  }

  /** A new grid is well formed exactly when every row is as long as the
      first. */
  lemma NewValid<T>(data: seq<seq<T>>, default: T)
    ensures New(data, default).Valid() <==> forall r :: 0 <= r < |data| ==> |data[r]| == |data[0]|
  {
  }

  /** In bounds means: a row of the grid and a column below the first row's
      width, which is every row's width. */
  lemma InBoundsIff<T>(data: seq<seq<T>>, default: T, row: int, col: int)
    requires New(data, default).Valid()
    ensures New(data, default).InBounds(row, col) <==> 0 <= row < |data| && 0 <= col < |data[0]|
    ensures New(data, default).InBounds(row, col) ==> col < |data[row]|
  {
  }

  /** `d` rows of `w` cells, counted by repeated addition. */
  function Offset(d: nat, w: nat): nat
  {
    if d == 0 then 0 else Offset(d - 1, w) + w
  }

  lemma {:induction false} OffsetIsProduct(d: nat, w: nat)
    ensures Offset(d, w) == d * w
  {
    if d > 0 {
      OffsetIsProduct(d - 1, w);
      assert d * w == (d - 1) * w + w;
    }
  }

  lemma {:induction false} CellsFromAt<T>(g: Grid<T>, from: nat, d: nat, c: nat)
    requires g.Valid() && from + d < g.height && c < g.width
    ensures Offset(d, g.width) + c < |g.CellsFrom(from)|
    ensures g.CellsFrom(from)[Offset(d, g.width) + c] == (from + d, c, g.data[from + d][c])
    decreases d
  {
    var w := g.width;
    var row := g.RowCells(from, 0);
    var rest := g.CellsFrom(from + 1);
    assert g.CellsFrom(from) == row + rest;
    if d == 0 {
      assert row[c] == (from, c, g.data[from][c]);
    } else {
      CellsFromAt(g, from + 1, d - 1, c);
      var k := Offset(d - 1, w) + c;
      assert |row| == w && k < |rest|;
      assert (row + rest)[w + k] == rest[k];
    }
  }

  lemma {:induction false} CellsFromLength<T>(g: Grid<T>, from: nat)
    requires g.Valid() && from <= g.height
    ensures |g.CellsFrom(from)| == (g.height - from) * g.width
    decreases g.height - from
  {
    if from < g.height {
      CellsFromLength(g, from + 1);
      assert (g.height - from) * g.width == g.width + (g.height - (from + 1)) * g.width;
    }
  }

  /** `cells` yields height * width entries, and the cell at (r, c) sits at
      index r * width + c: every position once, in row-major order. */
  lemma CellsRowMajor<T>(g: Grid<T>, r: nat, c: nat)
    requires g.Valid() && r < g.height && c < g.width
    ensures |g.Cells()| == g.height * g.width
    ensures r * g.width + c < |g.Cells()| && g.Cells()[r * g.width + c] == (r, c, g.data[r][c])
  {
    CellsFromAt(g, 0, r, c);
    OffsetIsProduct(r, g.width);
    CellsFromLength(g, 0);
  }

  lemma {:induction false} CellsFromInside<T>(g: Grid<T>, from: nat, k: nat)
    requires g.Valid() && from <= g.height && k < |g.CellsFrom(from)|
    ensures var (r, c, v) := g.CellsFrom(from)[k]; from <= r && g.InBounds(r, c) && v == g.data[r][c]
    decreases g.height - from
  {
    var row := g.RowCells(from, 0);
    if k >= |row| {
      CellsFromInside(g, from + 1, k - |row|);
      assert (row + g.CellsFrom(from + 1))[k] == g.CellsFrom(from + 1)[k - |row|];
    } else {
      assert g.CellsFrom(from)[k] == row[k - 0] == (from, k, g.data[from][k]);
    }
  }

  /** Every entry of `cells` is an in-bounds position with the value stored there. */
  lemma CellsInside<T>(g: Grid<T>, k: nat)
    requires g.Valid() && k < |g.Cells()|
    ensures var (r, c, v) := g.Cells()[k]; g.InBounds(r, c) && v == g.data[r][c]
  {
    CellsFromInside(g, 0, k);
  }

  lemma CellsLength<T>(g: Grid<T>)
    requires g.Valid()
    ensures |g.Cells()| == g.height * g.width
  {
    CellsFromLength(g, 0);
  }
}

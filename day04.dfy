// Day 4: a word search. Part one counts the ways "XMAS" reads off an X in
// one of eight directions; part two counts the A cells at the centre of two
// crossing "MAS" diagonals. The day's grid is the same value as day 8's:
// rows, a width taken from the first row and a default read off the grid.
module Day04 {
  import opened Text
  import opened Grid

  /** `input_to_grid`: every line trimmed, blank lines dropped, one cell per
      character; `default` is what reads outside the grid return. */
  function InputToGrid(input: string, default: char): (g: Grid<char>)
    ensures g.default == default && g.height == |NonBlankTrimmed(Lines(input))|
    ensures forall i :: 0 <= i < |g.data| ==> g.data[i] != [] && Trim(g.data[i]) == g.data[i]
  {
    NonBlankTrimmedTrimmed(Lines(input));
    New(NonBlankTrimmed(Lines(input)), default)
  }

  /** A single line of visible characters becomes a one-row grid. */
  lemma InputOfOneLine(s: string, default: char)
    requires s != [] && NoWhitespace(s)
    ensures InputToGrid(s, default) == New([s], default)
  {
    assert '\n' !in s by { assert IsWhitespace('\n'); }
    LinesOfLine(s);
    NonBlankOfVisible([s]);
  }

  /** `DIRECTIONS`: right, down, left, up and the four diagonals. */
  const Directions: seq<(int, int)> := [(0, 1), (1, 0), (0, -1), (-1, 0), (1, 1), (-1, -1), (1, -1), (-1, 1)]

  /** The three cells after (r, c) in direction (dr, dc) read "MAS". */
  predicate Spells(g: Grid<char>, r: int, c: int, dr: int, dc: int)
    requires g.Valid()
  {
    g.Get(r + dr, c + dc) == 'M' && g.Get(r + 2 * dr, c + 2 * dc) == 'A' && g.Get(r + 3 * dr, c + 3 * dc) == 'S'
  }

  /** How many of the first `n` directions spell "MAS" after (r, c). */
  function DirHits(g: Grid<char>, r: int, c: int, n: nat): nat
    requires g.Valid() && n <= |Directions|
  {
    if n == 0 then 0
    else DirHits(g, r, c, n - 1) + (if Spells(g, r, c, Directions[n - 1].0, Directions[n - 1].1) then 1 else 0)
  }

  /** The words that start at cell (r, c): none unless it holds an X. */
  function CellHits(g: Grid<char>, r: int, c: int): nat
    requires g.Valid()
  {
    if g.Get(r, c) == 'X' then DirHits(g, r, c, |Directions|) else 0
  }

  function RowHits(g: Grid<char>, r: int, n: nat): nat
    requires g.Valid() && n <= g.width
  {
    if n == 0 then 0 else RowHits(g, r, n - 1) + CellHits(g, r, n - 1)
  }

  function GridHits(g: Grid<char>, n: nat): nat
    requires g.Valid() && n <= g.height
  {
    if n == 0 then 0 else GridHits(g, n - 1) + RowHits(g, n - 1, g.width)
  }

  /** The puzzle's answer to part one: (X cell, direction) pairs whose next
      three cells spell "MAS". */
  function XmasCount(g: Grid<char>): nat
    requires g.Valid()
  {
    GridHits(g, g.height)
  }

  /** One direction of `solve_ex1`: walk "MAS" letter by letter from
      (row, col), stopping at the first mismatch; a completed S counts one. */
  method WalkMas(g: Grid<char>, row: int, col: int, dr: int, dc: int) returns (hits: nat)
    requires g.Valid()
    ensures hits == if Spells(g, row, col, dr, dc) then 1 else 0
  {
    hits := 0;
    var r, c := row, col;
    var k := 0;
    while k < 3
      invariant 0 <= k <= 3 && r == row + k * dr && c == col + k * dc
      invariant k >= 1 ==> g.Get(row + dr, col + dc) == 'M'
      invariant k >= 2 ==> g.Get(row + 2 * dr, col + 2 * dc) == 'A'
      invariant k == 3 ==> Spells(g, row, col, dr, dc)
      invariant hits == if k == 3 then 1 else 0
    {
      r := r + dr;
      c := c + dc;
      var letter := "MAS"[k];
      if g.Get(r, c) != letter {
        break;
      } else if letter == 'S' {
        hits := hits + 1;
      }
      k := k + 1;
    }
  }

  /** `solve_ex1`: every X cell, in every direction. */
  method SolveEx1(g: Grid<char>) returns (count: nat)
    requires g.Valid()
    ensures count == XmasCount(g)
  {
    count := 0;
    for row := 0 to g.height
      invariant count == GridHits(g, row)
    {
      for col := 0 to g.width
        invariant count == GridHits(g, row) + RowHits(g, row, col)
      {
        var val := g.data[row][col];
        if val != 'X' {
          continue;
        }
        for d := 0 to |Directions|
          invariant count == GridHits(g, row) + RowHits(g, row, col) + DirHits(g, row, col, d)
        {
          var (dr, dc) := Directions[d];
          var hits := WalkMas(g, row, col, dr, dc);
          count := count + hits;
        }
      }
    }
  }

  /** With a default that is none of M, A, S, a counted word lies wholly
      inside the grid: the default read never completes it. */
  lemma SpellsInside(g: Grid<char>, r: int, c: int, dr: int, dc: int)
    requires g.Valid() && g.default !in "MAS"
    requires Spells(g, r, c, dr, dc)
    ensures g.InBounds(r + dr, c + dc) && g.InBounds(r + 2 * dr, c + 2 * dc) && g.InBounds(r + 3 * dr, c + 3 * dc)
  {
    assert g.default != 'M' && g.default != 'A' && g.default != 'S';
  }

  /** At most one word per direction starts at a cell. */
  lemma {:induction false} DirHitsBound(g: Grid<char>, r: int, c: int, n: nat)
    requires g.Valid() && n <= |Directions|
    ensures DirHits(g, r, c, n) <= n
  {
    if n > 0 {
      DirHitsBound(g, r, c, n - 1);
    }
  }

  lemma {:induction false} RowHitsBound(g: Grid<char>, r: int, n: nat)
    requires g.Valid() && n <= g.width
    ensures RowHits(g, r, n) <= 8 * n
  {
    if n > 0 {
      RowHitsBound(g, r, n - 1);
      DirHitsBound(g, r, n - 1, |Directions|);
    }
  }

  lemma {:induction false} GridHitsBound(g: Grid<char>, n: nat)
    requires g.Valid() && n <= g.height
    ensures GridHits(g, n) <= 8 * g.width * n
  {
    if n > 0 {
      GridHitsBound(g, n - 1);
      RowHitsBound(g, n - 1, g.width);
      assert 8 * g.width * n == 8 * g.width * (n - 1) + 8 * g.width;
    }
  }

  /** Part one never counts more than eight words per cell. */
  lemma XmasCountBound(g: Grid<char>)
    requires g.Valid()
    ensures XmasCount(g) <= 8 * g.width * g.height
  {
    GridHitsBound(g, g.height);
  }

  /** An X whose only word runs in direction `k`. */
  lemma {:induction false} OneDirection(g: Grid<char>, r: int, c: int, k: nat, n: nat)
    requires g.Valid() && k < |Directions| && n <= |Directions|
    requires Spells(g, r, c, Directions[k].0, Directions[k].1)
    requires forall d :: 0 <= d < |Directions| && d != k ==> !Spells(g, r, c, Directions[d].0, Directions[d].1)
    ensures DirHits(g, r, c, n) == if k < n then 1 else 0
  {
    if n > 0 {
      OneDirection(g, r, c, k, n - 1);
    }
  }

  /** The one-row grid "XMAS" holds one word. */
  lemma XmasRow()
    ensures XmasCount(New(["XMAS"], '.')) == 1
  {
    var g := New(["XMAS"], '.');
    assert g.Valid();
    OneDirection(g, 0, 0, 0, 8);
    assert CellHits(g, 0, 0) == 1;
    assert g.Get(0, 1) == 'M' && g.Get(0, 2) == 'A' && g.Get(0, 3) == 'S';
    assert RowHits(g, 0, 4) == 1;
  }

  lemma ExampleXmas()
    ensures var g := InputToGrid("XMAS", '.'); g == New(["XMAS"], '.') && XmasCount(g) == 1
  {
    InputOfOneLine("XMAS", '.');
    XmasRow();
  }

  /** "XMASXMAS" holds two words; the second X's left neighbour is an S, so
      reading backwards finds nothing there. */
  lemma XmasRowTwice()
    ensures XmasCount(New(["XMASXMAS"], '.')) == 2
  {
    var g := New(["XMASXMAS"], '.');
    assert g.Valid();
    OneDirection(g, 0, 0, 0, 8);
    OneDirection(g, 0, 4, 0, 8);
    assert g.Get(0, 1) == 'M' && g.Get(0, 2) == 'A' && g.Get(0, 3) == 'S';
    assert g.Get(0, 5) == 'M' && g.Get(0, 6) == 'A' && g.Get(0, 7) == 'S';
    assert RowHits(g, 0, 4) == 1;
    assert RowHits(g, 0, 8) == 2;
  }

  lemma ExampleXmasTwice()
    ensures var g := InputToGrid("XMASXMAS", '.'); g == New(["XMASXMAS"], '.') && XmasCount(g) == 2
  {
    InputOfOneLine("XMASXMAS", '.');
    XmasRowTwice();
  }

  /** "XMAS.XMAS" holds two words. */
  lemma XmasRowSeparated()
    ensures XmasCount(New(["XMAS.XMAS"], '.')) == 2
  {
    var g := New(["XMAS.XMAS"], '.');
    assert g.Valid();
    OneDirection(g, 0, 0, 0, 8);
    OneDirection(g, 0, 5, 0, 8);
    assert g.Get(0, 1) == 'M' && g.Get(0, 2) == 'A' && g.Get(0, 3) == 'S' && g.Get(0, 4) == '.';
    assert g.Get(0, 6) == 'M' && g.Get(0, 7) == 'A' && g.Get(0, 8) == 'S';
    assert RowHits(g, 0, 5) == 1;
    assert RowHits(g, 0, 9) == 2;
  }

  lemma ExampleXmasSeparated()
    ensures var g := InputToGrid("XMAS.XMAS", '.'); g == New(["XMAS.XMAS"], '.') && XmasCount(g) == 2
  {
    InputOfOneLine("XMAS.XMAS", '.');
    XmasRowSeparated();
  }

  /** A word on the main diagonal of a 4x4 grid. */
  lemma XmasDiagonal()
    ensures XmasCount(New(["X...", ".M..", "..A.", "...S"], '.')) == 1
  {
    var g := New(["X...", ".M..", "..A.", "...S"], '.');
    assert g.Valid();
    assert g.Get(1, 1) == 'M' && g.Get(2, 2) == 'A' && g.Get(3, 3) == 'S';
    assert Spells(g, 0, 0, 1, 1);
    OneDirection(g, 0, 0, 4, 8);
    assert RowHits(g, 0, 4) == 1;
    assert RowHits(g, 1, 4) == 0;
    assert RowHits(g, 2, 4) == 0;
    assert RowHits(g, 3, 4) == 0;
  }

  /** The grid of the unit test `test_overlapping`. */
  const Overlapping := New(["XX..S", ".M..A", ".AA.M", ".S.SX"], '.')

  /** Its X at (0, 0) starts one word, on the diagonal. */
  lemma OverlappingCorner()
    ensures Overlapping.Valid() && CellHits(Overlapping, 0, 0) == 1
  {
    var g := Overlapping;
    assert g.Valid();
    assert g.Get(1, 1) == 'M' && g.Get(2, 2) == 'A' && g.Get(3, 3) == 'S';
    OneDirection(g, 0, 0, 4, 8);
  }

  /** Its X at (0, 1) starts one word, down the column. */
  lemma OverlappingColumn()
    ensures Overlapping.Valid() && CellHits(Overlapping, 0, 1) == 1
  {
    var g := Overlapping;
    assert g.Valid();
    assert g.Get(1, 1) == 'M' && g.Get(2, 1) == 'A' && g.Get(3, 1) == 'S';
    OneDirection(g, 0, 1, 1, 8);
  }

  /** Its X at (3, 4) starts one word, up the last column. */
  lemma OverlappingLast()
    ensures Overlapping.Valid() && CellHits(Overlapping, 3, 4) == 1
  {
    var g := Overlapping;
    assert g.Valid();
    assert g.Get(2, 4) == 'M' && g.Get(1, 4) == 'A' && g.Get(0, 4) == 'S';
    OneDirection(g, 3, 4, 3, 8);
  }

  /** The unit test `test_overlapping`: three words sharing letters. */
  lemma XmasOverlapping()
    ensures XmasCount(Overlapping) == 3
  {
    OverlappingCorner();
    OverlappingColumn();
    OverlappingLast();
    var g := Overlapping;
    assert RowHits(g, 0, 5) == 2;
    assert RowHits(g, 1, 5) == 0;
    assert RowHits(g, 2, 5) == 0;
    assert RowHits(g, 3, 5) == 1;
  }

  // ---------------------------------------------------------------- part two

  /** The two diagonals through a centre, each as its pair of offsets. */
  const Diagonals: seq<seq<(int, int)>> := [[(1, 1), (-1, -1)], [(1, -1), (-1, 1)]]

  /** The two cells of one diagonal around (r, c). */
  function DiagonalCells(g: Grid<char>, r: int, c: int, diag: seq<(int, int)>): (cells: seq<char>)
    requires g.Valid() && |diag| == 2
    ensures |cells| == 2
  {
    [g.Get(r + diag[0].0, c + diag[0].1), g.Get(r + diag[1].0, c + diag[1].1)]
  }

  /** Reads one way or the other, a diagonal through an A spells "MAS". */
  predicate MasAcross(a: char, b: char)
  {
    (a == 'M' && b == 'S') || (a == 'S' && b == 'M')
  }

  /** The filter of `solve_ex2`: an A whose two diagonals each contain both
      an M and an S, that is, an A with "MAS" written along both diagonals,
      each in either direction. */
  predicate IsXMas(g: Grid<char>, r: int, c: int, val: char)
    requires g.Valid()
    ensures IsXMas(g, r, c, val) <==>
      val == 'A' &&
      MasAcross(g.Get(r + 1, c + 1), g.Get(r - 1, c - 1)) &&
      MasAcross(g.Get(r + 1, c - 1), g.Get(r - 1, c + 1))
  {
    assert DiagonalCells(g, r, c, Diagonals[0]) == [g.Get(r + 1, c + 1), g.Get(r - 1, c - 1)];
    assert DiagonalCells(g, r, c, Diagonals[1]) == [g.Get(r + 1, c - 1), g.Get(r - 1, c + 1)];
    val == 'A' &&
    forall i :: 0 <= i < |Diagonals| ==>
      'M' in DiagonalCells(g, r, c, Diagonals[i]) && 'S' in DiagonalCells(g, r, c, Diagonals[i])
  }

  function CountXMas(g: Grid<char>, cells: seq<(int, int, char)>): (n: nat)
    requires g.Valid()
    ensures n <= |cells|
  {
    if cells == [] then 0
    else (if IsXMas(g, cells[0].0, cells[0].1, cells[0].2) then 1 else 0) + CountXMas(g, cells[1..])
  }

  /** `solve_ex2`: the cells that pass the filter. */
  function SolveEx2(g: Grid<char>): (n: nat)
    requires g.Valid()
    ensures n <= g.height * g.width
  {
    CellsLength(g);
    CountXMas(g, g.Cells())
  }

  /** With a default that is neither M nor S, an X-MAS centre is never on
      the grid's border. */
  lemma XMasInterior(g: Grid<char>, r: int, c: int, val: char)
    requires g.Valid() && g.default != 'M' && g.default != 'S'
    requires IsXMas(g, r, c, val)
    ensures 1 <= r < g.height - 1 && 1 <= c < g.width - 1
  {
    assert g.InBounds(r + 1, c + 1) && g.InBounds(r - 1, c - 1);
  }

  /** The smallest X-MAS: one centre. */
  lemma ExampleXMas()
    ensures SolveEx2(New(["M.S", ".A.", "M.S"], '.')) == 1
  {
    var g := New(["M.S", ".A.", "M.S"], '.');
    assert g.Valid();
    var cells := g.Cells();
    assert g.RowCells(0, 0) == [(0, 0, 'M'), (0, 1, '.'), (0, 2, 'S')];
    assert g.RowCells(1, 0) == [(1, 0, '.'), (1, 1, 'A'), (1, 2, '.')];
    assert g.RowCells(2, 0) == [(2, 0, 'M'), (2, 1, '.'), (2, 2, 'S')];
    assert g.CellsFrom(3) == [];
    assert cells == g.RowCells(0, 0) + g.RowCells(1, 0) + g.RowCells(2, 0);
    assert IsXMas(g, 1, 1, 'A');
    assert CountXMas(g, cells[8..]) == 0;
    assert CountXMas(g, cells[7..]) == 0;
    assert CountXMas(g, cells[6..]) == 0;
    assert CountXMas(g, cells[5..]) == 0;
    assert CountXMas(g, cells[4..]) == 1;
    assert CountXMas(g, cells[3..]) == 1;
    assert CountXMas(g, cells) == 1;
  }
}

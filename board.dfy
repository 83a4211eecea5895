// The shared `Board<T>` of the workspace library: a vector of rows indexed
// by a `Point2`, read from text one character per cell and written back out
// one line per row.
module Board {
  import opened Wrappers
  import opened Text

  /** A cell position; both coordinates are `usize`. */
  datatype Point2 = Point2(row: nat, col: nat)

  /** The cells of `rows` come before `p` in row-major order. */
  predicate Before(i: int, j: int, p: Point2)
  {
    i < p.row || (i == p.row && j < p.col)
  }

  class Board<T(==)> {
    var rows: seq<seq<T>>

    constructor (rows: seq<seq<T>>)
      ensures this.rows == rows
    {
      this.rows := rows;
    }

    predicate InBounds(p: Point2)
      reads this
    {
      p.row < |rows| && p.col < |rows[p.row]|
    }

    /** `board[p]`: the token in row `p.row`, column `p.col`. */
    function At(p: Point2): (t: T)
      reads this
      requires InBounds(p)
      ensures t == rows[p.row][p.col]
    {
      rows[p.row][p.col]
    }

    /** `board[p] = t`: exactly that cell changes. */
    method Set(p: Point2, t: T)
      requires InBounds(p)
      modifies this
      ensures |rows| == |old(rows)|
      ensures forall i :: 0 <= i < |rows| ==> |rows[i]| == |old(rows)[i]|
      ensures rows[p.row][p.col] == t
      ensures forall i, j :: 0 <= i < |rows| && 0 <= j < |rows[i]| && (i != p.row || j != p.col) ==>
        rows[i][j] == old(rows)[i][j]
      ensures rows == old(rows)[p.row := old(rows)[p.row][p.col := t]]
    {
      rows := rows[p.row := rows[p.row][p.col := t]];
    }

    /** `find`: the first cell holding `x` in row-major order. `None` is the
        case where the source panics because no cell matches. */
    method Find(x: T) returns (r: Option<Point2>)
      ensures r.Some? ==> InBounds(r.value) && At(r.value) == x
      ensures r.Some? ==> forall i, j :: 0 <= i < |rows| && 0 <= j < |rows[i]| && Before(i, j, r.value) ==> rows[i][j] != x
      ensures r.None? <==> forall i, j :: 0 <= i < |rows| && 0 <= j < |rows[i]| ==> rows[i][j] != x
      ensures r == First(rows, x)
    {
      var i := 0;
      while i < |rows|
        invariant 0 <= i <= |rows|
        invariant forall a, b :: 0 <= a < i && 0 <= b < |rows[a]| ==> rows[a][b] != x
      {
        var j := 0;
        while j < |rows[i]|
          invariant 0 <= j <= |rows[i]|
          invariant forall b :: 0 <= b < j ==> rows[i][b] != x
        {
          if rows[i][j] == x {
            FirstAt(rows, x, Point2(i, j));
            return Some(Point2(i, j));
          }
          j := j + 1;
        }
        i := i + 1;
      }
      FirstNone(rows, x);
      return None;
    }

    /** `Display`: every row's tokens, then a newline. */
    function Display(show: T -> string): (s: string)
      reads this
    {
      Unlines(RenderRows(rows, show))
    }
  }

  /** The first cell holding `x` in row-major order, as `find` scans. */
  function First<T(==)>(rows: seq<seq<T>>, x: T): (r: Option<Point2>)
    ensures r.Some? ==> r.value.row < |rows|
  {
    if rows == [] then None
    else match FirstInRow(rows[0], x)
      case Some(j) => Some(Point2(0, j))
      case None =>
        match First(rows[1..], x)
        case None => None
        case Some(p) => Some(Point2(p.row + 1, p.col))
  }

  function FirstInRow<T(==)>(row: seq<T>, x: T): Option<nat>
  {
    if row == [] then None
    else if row[0] == x then Some(0)
    else
      match FirstInRow(row[1..], x)
      case None => None
      case Some(j) => Some(j + 1)
  }

  lemma {:induction false} FirstInRowAt<T>(row: seq<T>, x: T, j: nat)
    requires j < |row| && row[j] == x
    requires forall b :: 0 <= b < j ==> row[b] != x
    ensures FirstInRow(row, x) == Some(j)
  {
    if j > 0 {
      assert row[0] != x;
      FirstInRowAt(row[1..], x, j - 1);
    }
  }

  lemma {:induction false} FirstInRowNone<T>(row: seq<T>, x: T)
    requires forall b :: 0 <= b < |row| ==> row[b] != x
    ensures FirstInRow(row, x) == None
  {
    if row != [] {
      FirstInRowNone(row[1..], x);
    }
  }

  /** A cell holding `x` with no earlier such cell is the one `First` gives. */
  lemma {:induction false} FirstAt<T>(rows: seq<seq<T>>, x: T, p: Point2)
    requires p.row < |rows| && p.col < |rows[p.row]| && rows[p.row][p.col] == x
    requires forall i, j :: 0 <= i < |rows| && 0 <= j < |rows[i]| && Before(i, j, p) ==> rows[i][j] != x
    ensures First(rows, x) == Some(p)
  {
    if p.row == 0 {
      FirstInRowAt(rows[0], x, p.col);
    } else {
      FirstInRowNone(rows[0], x);
      var tail := rows[1..];
      forall i, j | 0 <= i < |tail| && 0 <= j < |tail[i]| && Before(i, j, Point2(p.row - 1, p.col))
        ensures tail[i][j] != x
      {
        assert tail[i] == rows[i + 1] && Before(i + 1, j, p);
      }
      FirstAt(tail, x, Point2(p.row - 1, p.col));
    }
  }

  /** No cell holds `x` exactly when `First` gives nothing. */
  lemma {:induction false} FirstNone<T>(rows: seq<seq<T>>, x: T)
    requires forall i, j :: 0 <= i < |rows| && 0 <= j < |rows[i]| ==> rows[i][j] != x
    ensures First(rows, x) == None
  {
    if rows != [] {
      FirstInRowNone(rows[0], x);
      var tail := rows[1..];
      assert forall i :: 0 <= i < |tail| ==> tail[i] == rows[i + 1];
      FirstNone(tail, x);
    }
  }

  lemma {:induction false} FirstInRowSound<T>(row: seq<T>, x: T)
    ensures FirstInRow(row, x).Some? ==> FirstInRow(row, x).value < |row| && row[FirstInRow(row, x).value] == x
    ensures FirstInRow(row, x).None? ==> forall b :: 0 <= b < |row| ==> row[b] != x
  {
    if row != [] && row[0] != x {
      FirstInRowSound(row[1..], x);
      assert forall b :: 1 <= b < |row| ==> row[b] == row[1..][b - 1];
    }
  }

  /** What `First` gives holds `x`, and when it gives nothing no cell does. */
  lemma {:induction false} FirstSound<T>(rows: seq<seq<T>>, x: T)
    ensures First(rows, x).Some? ==> var p := First(rows, x).value;
      p.row < |rows| && p.col < |rows[p.row]| && rows[p.row][p.col] == x
    ensures First(rows, x).None? ==> forall i, j :: 0 <= i < |rows| && 0 <= j < |rows[i]| ==> rows[i][j] != x
  {
    if rows != [] {
      FirstInRowSound(rows[0], x);
      FirstSound(rows[1..], x);
      assert forall i :: 1 <= i < |rows| ==> rows[i] == rows[1..][i - 1];
    }
  }

  function RenderRow<T>(row: seq<T>, show: T -> string): string
  {
    if row == [] then [] else show(row[0]) + RenderRow(row[1..], show)
  }

  function RenderRows<T>(rows: seq<seq<T>>, show: T -> string): (r: seq<string>)
    ensures |r| == |rows|
    ensures forall i :: 0 <= i < |rows| ==> r[i] == RenderRow(rows[i], show)
  {
    if rows == [] then [] else [RenderRow(rows[0], show)] + RenderRows(rows[1..], show)
  }

  /** One line of `from_lines`: each character parsed on its own; the first
      character that does not parse is the error. */
  function ParseRow<T>(line: string, parse: char -> Option<T>): (r: Result<seq<T>, char>)
    ensures r.Ok? <==> forall j :: 0 <= j < |line| ==> parse(line[j]).Some?
    ensures r.Ok? ==> |r.value| == |line| && forall j :: 0 <= j < |line| ==> parse(line[j]) == Some(r.value[j])
    ensures r.Err? ==> r.error in line && parse(r.error).None?
  {
    if line == [] then Ok([])
    else match parse(line[0])
      case None => Err(line[0])
      case Some(t) =>
        match ParseRow(line[1..], parse)
        case Err(c) => Err(c)
        case Ok(ts) =>
          assert forall j :: 1 <= j < |line| ==> line[j] == line[1..][j - 1];
          Ok([t] + ts)
  }

  function ParseRows<T>(lines: seq<string>, parse: char -> Option<T>): (r: Result<seq<seq<T>>, char>)
    ensures r.Ok? <==> forall i :: 0 <= i < |lines| ==> ParseRow(lines[i], parse).Ok?
    ensures r.Ok? ==> |r.value| == |lines| && forall i :: 0 <= i < |lines| ==> ParseRow(lines[i], parse) == Ok(r.value[i])
  {
    if lines == [] then Ok([])
    else match ParseRow(lines[0], parse)
      case Err(c) => Err(c)
      case Ok(row) =>
        match ParseRows(lines[1..], parse)
        case Err(c) => Err(c)
        case Ok(rest) =>
          assert forall i :: 1 <= i < |lines| ==> lines[i] == lines[1..][i - 1];
          Ok([row] + rest)
  }

  /** `from_lines`: blank lines dropped, every other line trimmed and parsed
      character by character; any character that fails to parse makes the
      whole board fail. */
  function FromLines<T>(lines: seq<string>, parse: char -> Option<T>): (r: Result<seq<seq<T>>, char>)
    ensures var kept := NonBlankTrimmed(lines);
      r.Ok? <==> forall i, j :: 0 <= i < |kept| && 0 <= j < |kept[i]| ==> parse(kept[i][j]).Some?
    ensures var kept := NonBlankTrimmed(lines);
      r.Ok? ==> |r.value| == |kept| && forall i :: 0 <= i < |kept| ==>
        |r.value[i]| == |kept[i]| && forall j :: 0 <= j < |kept[i]| ==> parse(kept[i][j]) == Some(r.value[i][j])
  {
    var kept := NonBlankTrimmed(lines);
    ParseRowsAllParse(kept, parse);
    ParseRows(kept, parse)
  }

  lemma ParseRowsAllParse<T>(lines: seq<string>, parse: char -> Option<T>)
    ensures ParseRows(lines, parse).Ok? <==>
      forall i, j :: 0 <= i < |lines| && 0 <= j < |lines[i]| ==> parse(lines[i][j]).Some?
  {
    if ParseRows(lines, parse).Ok? {
      forall i, j | 0 <= i < |lines| && 0 <= j < |lines[i]| ensures parse(lines[i][j]).Some? {
        assert ParseRow(lines[i], parse).Ok?;
      }
    } else {
      var i :| 0 <= i < |lines| && !ParseRow(lines[i], parse).Ok?;
      var j :| 0 <= j < |lines[i]| && !parse(lines[i][j]).Some?;
    }
  }

  /** A token codec: `show` writes the token as one visible character that
      `parse` reads back as the same token. */
  ghost predicate Codec<T>(show: T -> string, parse: char -> Option<T>, t: T)
  {
    |show(t)| == 1 && !IsWhitespace(show(t)[0]) && parse(show(t)[0]) == Some(t)
  }

  ghost predicate AllCodec<T>(rows: seq<seq<T>>, show: T -> string, parse: char -> Option<T>)
  {
    forall i, j :: 0 <= i < |rows| && 0 <= j < |rows[i]| ==> Codec(show, parse, rows[i][j])
  }

  lemma {:induction false} RenderRowShape<T>(row: seq<T>, show: T -> string, parse: char -> Option<T>)
    requires forall j :: 0 <= j < |row| ==> Codec(show, parse, row[j])
    ensures |RenderRow(row, show)| == |row|
    ensures NoWhitespace(RenderRow(row, show))
    ensures ParseRow(RenderRow(row, show), parse) == Ok(row)
  {
    if row != [] {
      RenderRowShape(row[1..], show, parse);
      var s := RenderRow(row, show);
      assert Codec(show, parse, row[0]);
      assert s == show(row[0]) + RenderRow(row[1..], show);
      assert s[0] == show(row[0])[0];
      assert s[1..] == RenderRow(row[1..], show);
      assert forall j :: 1 <= j < |s| ==> s[j] == s[1..][j - 1];
      assert row == [row[0]] + row[1..];
    }
  }

  /** Writing a board out and reading it back gives the same rows, whenever
      every row is non-empty and each token prints as one character that
      parses back to it. */
  lemma DisplayRoundTrip<T>(b: Board<T>, show: T -> string, parse: char -> Option<T>)
    requires forall i :: 0 <= i < |b.rows| ==> b.rows[i] != []
    requires AllCodec(b.rows, show, parse)
    ensures FromLines(Lines(b.Display(show)), parse) == Ok(b.rows)
  {
    var rendered := RenderRows(b.rows, show);
    forall i | 0 <= i < |b.rows|
      ensures rendered[i] != [] && NoWhitespace(rendered[i])
      ensures ParseRow(rendered[i], parse) == Ok(b.rows[i])
    {
      RenderRowShape(b.rows[i], show, parse);
    }
    assert forall i :: 0 <= i < |rendered| ==> '\n' !in rendered[i];
    LinesUnlines(rendered);
    NonBlankOfVisible(rendered);
    var r := ParseRows(rendered, parse);
    assert r.Ok?;
    assert r.value == b.rows;
  }
}

// Day 1 (1/src/main.rs): two columns of location ids. Part one sorts both
// columns and adds up the distances of paired entries; part two weighs every
// left id by how often it occurs on the right.
module Day01 {
  import opened Wrappers
  import opened Text

  const U32_BOUND: nat := 0x1_0000_0000

  datatype Error =
    | NoRightNumber(line: string)   // the `Err` the source returns
    | InvalidNumber(token: string)  // `parse::<u32>().unwrap()` panicking

  // ------------------------------------------------------------ sorting

  predicate Sorted(s: seq<nat>)
  {
    forall i, j :: 0 <= i < j < |s| ==> s[i] <= s[j]
  }

  function Insert(x: nat, s: seq<nat>): (r: seq<nat>)
    ensures |r| == |s| + 1
  {
    if s == [] then [x]
    else if x <= s[0] then [x] + s
    else [s[0]] + Insert(x, s[1..])
  }

  /** The ascending rearrangement of `s` (the model of `Vec::sort`). */
  function Sort(s: seq<nat>): (r: seq<nat>)
    ensures |r| == |s|
  {
    if s == [] then [] else Insert(s[0], Sort(s[1..]))
  }

  lemma SortedCons(h: nat, t: seq<nat>)
    requires Sorted(t) && forall k :: 0 <= k < |t| ==> h <= t[k]
    ensures Sorted([h] + t)
  {
    var s := [h] + t;
    forall i, j | 0 <= i < j < |s| ensures s[i] <= s[j] {
      if i > 0 { assert s[i] == t[i - 1]; }
      assert s[j] == t[j - 1];
    }
  }

  lemma {:induction false} InsertSorted(x: nat, s: seq<nat>)
    requires Sorted(s)
    ensures Sorted(Insert(x, s)) && multiset(Insert(x, s)) == multiset(s) + multiset{x}
  {
    if s == [] {
    } else if x <= s[0] {
      SortedCons(x, s);
    } else {
      var h, tl := s[0], s[1..];
      assert s == [h] + tl;
      assert Sorted(tl);
      InsertSorted(x, tl);
      var t := Insert(x, tl);
      forall k | 0 <= k < |t| ensures h <= t[k] {
        assert t[k] in multiset(t);
        if t[k] != x {
          assert t[k] in multiset(tl);
          var i :| 0 <= i < |tl| && tl[i] == t[k];
          assert s[i + 1] == t[k];
        }
      }
      SortedCons(h, t);
      assert Insert(x, s) == [h] + t;
      assert multiset([h] + t) == multiset{h} + multiset(t);
    }
  }

  /** `sort` leaves the column ascending and holding the same values. */
  lemma {:induction false} SortSorted(s: seq<nat>)
    ensures Sorted(Sort(s)) && multiset(Sort(s)) == multiset(s)
  {
    if s != [] {
      SortSorted(s[1..]);
      InsertSorted(s[0], Sort(s[1..]));
      assert s == [s[0]] + s[1..];
    }
  }

  lemma SortedMin(a: seq<nat>, y: nat)
    requires Sorted(a) && a != [] && y in multiset(a)
    ensures a[0] <= y
  {
    var i :| 0 <= i < |a| && a[i] == y;
  }

  lemma {:induction false} SortedUnique(a: seq<nat>, b: seq<nat>)
    requires Sorted(a) && Sorted(b) && multiset(a) == multiset(b)
    ensures a == b
  {
    if a != [] {
      assert a[0] in multiset(a);
      assert b != [];
      assert b[0] in multiset(b);
      SortedMin(a, b[0]);
      SortedMin(b, a[0]);
      TailsAgree(a, b);
      SortedUnique(a[1..], b[1..]);
      assert a == [a[0]] + a[1..] && b == [b[0]] + b[1..];
    }
  }

  lemma TailsAgree(a: seq<nat>, b: seq<nat>)
    requires Sorted(a) && Sorted(b) && multiset(a) == multiset(b)
    requires a != [] && b != [] && a[0] == b[0]
    ensures Sorted(a[1..]) && Sorted(b[1..]) && multiset(a[1..]) == multiset(b[1..])
  {
    assert a == [a[0]] + a[1..] && b == [b[0]] + b[1..];
    assert multiset(a[1..]) == multiset(a) - multiset{a[0]};
    assert multiset(b[1..]) == multiset(b) - multiset{b[0]};
  }

  /** Sorting depends only on which values occur, not on their order. */
  lemma SortPermutation(a: seq<nat>, b: seq<nat>)
    requires multiset(a) == multiset(b)
    ensures Sort(a) == Sort(b)
  {
    SortSorted(a);
    SortSorted(b);
    SortedUnique(Sort(a), Sort(b));
  }

  // ------------------------------------------------------------ part one

  /** Outcome of one line in part one. */
  datatype LineItem = Blank | Pair(l: nat, r: nat) | Fail(e: Error)

  function DistanceLine(line: string): LineItem
  {
    var toks := SplitWhitespace(line);
    if |toks| == 0 then Blank
    else if |toks| == 1 then Fail(NoRightNumber(line))
    else match ParseNat(toks[0], U32_BOUND)
      case None => Fail(InvalidNumber(toks[0]))
      case Some(l) =>
        match ParseNat(toks[1], U32_BOUND)
        case None => Fail(InvalidNumber(toks[1]))
        case Some(r) => Pair(l, r)
  }

  /** The two columns read from the lines, stopping at the first failing line. */
  function Columns(lines: seq<string>, item: string -> LineItem): Result<(seq<nat>, seq<nat>), Error>
  {
    if lines == [] then Ok(([], []))
    else match Columns(lines[..|lines| - 1], item)
      case Err(e) => Err(e)
      case Ok(cols) =>
        match item(lines[|lines| - 1])
        case Blank => Ok(cols)
        case Fail(e) => Err(e)
        case Pair(l, r) => Ok((cols.0 + [l], cols.1 + [r]))
  }

  /** Sum of |a[i] - b[i]| over the zipped pairs. */
  function AbsDiff(x: nat, y: nat): nat
  {
    if x >= y then x - y else y - x
  }

  function SumAbsDiff(a: seq<nat>, b: seq<nat>): nat
  {
    if a == [] || b == [] then 0 else AbsDiff(a[0], b[0]) + SumAbsDiff(a[1..], b[1..])
  }

  lemma {:induction false} SumAbsDiffSnoc(a: seq<nat>, b: seq<nat>, x: nat, y: nat)
    requires |a| == |b|
    ensures SumAbsDiff(a + [x], b + [y]) == SumAbsDiff(a, b) + AbsDiff(x, y)
  {
    if a != [] {
      SumAbsDiffSnoc(a[1..], b[1..], x, y);
      assert (a + [x])[1..] == a[1..] + [x];
      assert (b + [y])[1..] == b[1..] + [y];
    }
  }

  /** The total distance of two columns: pair the smallest with the smallest,
      the second smallest with the second smallest, and so on. */
  function TotalDistance(left: seq<nat>, right: seq<nat>): nat
  {
    SumAbsDiff(Sort(left), Sort(right))
  }

  /** `ex_1_distances`. */
  method Distances(input: string) returns (r: Result<nat, Error>)
    ensures r == match Columns(Lines(input), DistanceLine)
      case Err(e) => Err(e)
      case Ok(cols) => Ok(TotalDistance(cols.0, cols.1))
  {
    var lines := Lines(input);
    var left, right := [], [];
    for i := 0 to |lines|
      invariant Columns(lines[..i], DistanceLine) == Ok((left, right))
    {
      ColumnsStep(lines, i, DistanceLine);
      match DistanceLine(lines[i]) {
        case Blank =>
        case Fail(e) =>
          ColumnsFailAt(lines, i, DistanceLine);
          return Err(e);
        case Pair(l, rn) =>
          left, right := left + [l], right + [rn];
      }
    }
    assert lines[..|lines|] == lines;
    ColumnsSameLength(lines, DistanceLine);
    var sum := SumDistances(Sort(left), Sort(right));
    return Ok(sum);
  }


  /** The `zip().map(abs_diff).sum()` pipeline over the sorted columns. */
  method SumDistances(a: seq<nat>, b: seq<nat>) returns (sum: nat)
    requires |a| == |b|
    ensures sum == SumAbsDiff(a, b)
  {
    sum := 0;
    for k := 0 to |a|
      invariant sum == SumAbsDiff(a[..k], b[..k])
    {
      assert a[..k + 1] == a[..k] + [a[k]] && b[..k + 1] == b[..k] + [b[k]];
      SumAbsDiffSnoc(a[..k], b[..k], a[k], b[k]);
      sum := sum + if a[k] >= b[k] then a[k] - b[k] else b[k] - a[k];
    }
    assert a[..|a|] == a && b[..|b|] == b;
  }

  /** Once a line fails, the error is final: later lines are not read. */
  lemma {:induction false} ColumnsErrorStays(lines: seq<string>, k: nat, item: string -> LineItem)
    requires k <= |lines| && Columns(lines[..k], item).Err?
    ensures Columns(lines, item) == Columns(lines[..k], item)
    decreases |lines| - k
  {
    if k < |lines| {
      assert lines[..|lines| - 1][..k] == lines[..k];
      ColumnsErrorStays(lines[..|lines| - 1], k, item);
    } else {
      assert lines[..k] == lines;
    }
  }

  lemma ColumnsFailAt(lines: seq<string>, i: nat, item: string -> LineItem)
    requires i < |lines| && Columns(lines[..i], item).Ok? && item(lines[i]).Fail?
    ensures Columns(lines, item) == Err(item(lines[i]).e)
  {
    assert lines[..i + 1][..i] == lines[..i];
    ColumnsErrorStays(lines, i + 1, item);
  }

  /** One more line: skipped, appended to both columns, or the error. */
  lemma ColumnsStep(lines: seq<string>, i: nat, item: string -> LineItem)
    requires i < |lines|
    ensures Columns(lines[..i + 1], item) == match Columns(lines[..i], item)
      case Err(e) => Err(e)
      case Ok(cols) =>
        match item(lines[i])
        case Blank => Ok(cols)
        case Fail(e) => Err(e)
        case Pair(l, r) => Ok((cols.0 + [l], cols.1 + [r]))
  {
    assert lines[..i + 1][..i] == lines[..i];
  }

  lemma {:induction false} ColumnsSameLength(lines: seq<string>, item: string -> LineItem)
    ensures Columns(lines, item).Ok? ==> |Columns(lines, item).value.0| == |Columns(lines, item).value.1|
  {
    if lines != [] {
      ColumnsSameLength(lines[..|lines| - 1], item);
    }
  }

  /** The distance does not depend on the order in which the lines came:
      only on which values each column holds. */
  lemma DistanceOrderFree(l1: seq<nat>, r1: seq<nat>, l2: seq<nat>, r2: seq<nat>)
    requires multiset(l1) == multiset(l2) && multiset(r1) == multiset(r2)
    ensures TotalDistance(l1, r1) == TotalDistance(l2, r2)
  {
    SortPermutation(l1, l2);
    SortPermutation(r1, r2);
  }

  /** A line with no token is skipped; a line with one token is the
      "No right number" error, reported for the first such line. */
  lemma ColumnsLineCases(lines: seq<string>, line: string)
    requires Columns(lines, DistanceLine).Ok?
    ensures SplitWhitespace(line) == [] ==> Columns(lines + [line], DistanceLine) == Columns(lines, DistanceLine)
    ensures |SplitWhitespace(line)| == 1 ==> Columns(lines + [line], DistanceLine) == Err(NoRightNumber(line))
  {
    assert (lines + [line])[..|lines|] == lines;
  }

  /** The columns of the worked example have total distance 11. */
  lemma DistanceExample()
    ensures TotalDistance([3, 4, 2, 1, 3, 3], [4, 3, 5, 3, 9, 3]) == 11
  {
    SortExampleLeft();
    SortExampleRight();
    SumExample();
  }

  /** The paired distances of the sorted example columns. */
  lemma SumExample()
    ensures SumAbsDiff([1, 2, 3, 3, 3, 4], [3, 3, 3, 4, 5, 9]) == 11
  {
  }

  lemma SortExampleLeft()
    ensures Sort([3, 4, 2, 1, 3, 3]) == [1, 2, 3, 3, 3, 4]
  {
    assert Sort([3]) == [3];
    assert Sort([3, 3]) == [3, 3];
    assert Sort([1, 3, 3]) == [1, 3, 3];
    assert Sort([2, 1, 3, 3]) == [1, 2, 3, 3];
    assert Sort([4, 2, 1, 3, 3]) == [1, 2, 3, 3, 4];
  }

  lemma SortExampleRight()
    ensures Sort([4, 3, 5, 3, 9, 3]) == [3, 3, 3, 4, 5, 9]
  {
    assert Sort([3]) == [3];
    assert Sort([9, 3]) == [3, 9];
    assert Sort([3, 9, 3]) == [3, 3, 9];
    assert Sort([5, 3, 9, 3]) == [3, 3, 5, 9];
    assert Sort([3, 5, 3, 9, 3]) == [3, 3, 3, 5, 9];
  }

  // ------------------------------------------------------------ part two

  function Count(s: seq<nat>, x: nat): nat
  {
    if s == [] then 0 else (if s[0] == x then 1 else 0) + Count(s[1..], x)
  }

  /** Sum over the left column of `l` times the occurrences of `l` on the right. */
  function Similarity(left: seq<nat>, right: seq<nat>): nat
  {
    if left == [] then 0 else left[0] * Count(right, left[0]) + Similarity(left[1..], right)
  }

  /** Part two reads a line only if its first token parses; a missing or
      unparsable second token is the error. */
  function SimilarityLine(line: string): LineItem
  {
    var toks := SplitWhitespace(line);
    if |toks| == 0 || ParseNat(toks[0], U32_BOUND).None? then Blank
    else if |toks| == 1 || ParseNat(toks[1], U32_BOUND).None? then Fail(NoRightNumber(line))
    else Pair(ParseNat(toks[0], U32_BOUND).value, ParseNat(toks[1], U32_BOUND).value)
  }

  /** `counts.get(k).unwrap_or(&0)`. */
  function CountOf(counts: map<nat, nat>, k: nat): nat
  {
    if k in counts then counts[k] else 0
  }

  /** `ex_2_similarity_score`, with its `counts` map. */
  method SimilarityScore(input: string) returns (r: Result<nat, Error>)
    ensures r == match Columns(Lines(input), SimilarityLine)
      case Err(e) => Err(e)
      case Ok(cols) => Ok(Similarity(cols.0, cols.1))
  {
    var lines := Lines(input);
    var left: seq<nat> := [];
    ghost var right: seq<nat> := [];
    var counts: map<nat, nat> := map[];
    for i := 0 to |lines|
      invariant Columns(lines[..i], SimilarityLine) == Ok((left, right))
      invariant forall k :: CountOf(counts, k) == Count(right, k)
    {
      ColumnsStep(lines, i, SimilarityLine);
      var item := SimilarityLine(lines[i]);
      if item.Blank? {
        continue;
      }
      if item.Fail? {
        ColumnsFailAt(lines, i, SimilarityLine);
        return Err(item.e);
      }
      var l, rn := item.l, item.r;
      left := left + [l];
      ghost var before := counts;
      counts := counts[rn := if rn in counts then counts[rn] + 1 else 1];
      forall x ensures CountOf(counts, x) == Count(right + [rn], x) {
        CountSnoc(right, rn, x);
        assert CountOf(before, x) == Count(right, x);
      }
      right := right + [rn];
    }
    assert lines[..|lines|] == lines;
    var sum := WeightedSum(left, counts, right);
    return Ok(sum);
  }

  /** The `left.iter().map(|l| l * counts[l]).sum()` pipeline. */
  method WeightedSum(left: seq<nat>, counts: map<nat, nat>, ghost right: seq<nat>) returns (sum: nat)
    requires forall k :: CountOf(counts, k) == Count(right, k)
    ensures sum == Similarity(left, right)
  {
    sum := 0;
    for k := 0 to |left|
      invariant sum == Similarity(left[..k], right)
    {
      assert left[..k + 1] == left[..k] + [left[k]];
      SimilaritySnocLeft(left[..k], right, left[k]);
      assert CountOf(counts, left[k]) == Count(right, left[k]);
      sum := sum + left[k] * if left[k] in counts then counts[left[k]] else 0;
    }
    assert left[..|left|] == left;
  }

  lemma {:induction false} CountSnoc(s: seq<nat>, y: nat, x: nat)
    ensures Count(s + [y], x) == Count(s, x) + (if x == y then 1 else 0)
  {
    if s != [] {
      CountSnoc(s[1..], y, x);
      assert (s + [y])[1..] == s[1..] + [y];
    }
  }

  lemma {:induction false} SimilaritySnocLeft(left: seq<nat>, right: seq<nat>, x: nat)
    ensures Similarity(left + [x], right) == Similarity(left, right) + x * Count(right, x)
  {
    if left != [] {
      SimilaritySnocLeft(left[1..], right, x);
      assert (left + [x])[1..] == left[1..] + [x];
    }
  }

  lemma {:induction false} SimilaritySnocRight(left: seq<nat>, right: seq<nat>, y: nat)
    ensures Similarity(left, right + [y]) == Similarity(left, right) + y * Count(left, y)
  {
    if left != [] {
      var x, tl := left[0], left[1..];
      SimilaritySnocRight(tl, right, y);
      CountSnoc(right, y, x);
      var cx, e := Count(right, x), if x == y then 1 else 0;
      assert Similarity(left, right + [y]) == x * (cx + e) + Similarity(tl, right + [y]);
      Distribute(x, cx, e);
      assert Count(left, y) == e + Count(tl, y);
      Distribute(y, e, Count(tl, y));
      assert x * e == y * e;
    }
  }

  lemma Distribute(a: nat, b: nat, c: nat)
    ensures a * (b + c) == a * b + a * c
  {
  }

  lemma {:induction false} SimilarityEmpty(left: seq<nat>)
    ensures Similarity(left, []) == 0
  {
    if left != [] {
      SimilarityEmpty(left[1..]);
    }
  }

  /** Similarity counts every equal (left, right) pair once, weighted by the
      shared value, so swapping the columns gives the same score. */
  lemma {:induction false} SimilaritySymmetric(left: seq<nat>, right: seq<nat>)
    ensures Similarity(left, right) == Similarity(right, left)
    decreases |left|
  {
    if left == [] {
      SimilarityEmpty(right);
    } else {
      var init, x := left[..|left| - 1], left[|left| - 1];
      assert left == init + [x];
      SimilaritySymmetric(init, right);
      SimilaritySnocLeft(init, right, x);
      SimilaritySnocRight(right, init, x);
    }
  }

  /** The columns of the worked example have similarity 31. */
  lemma SimilarityExample()
    ensures Similarity([3, 4, 2, 1, 3, 3], [4, 3, 5, 3, 9, 3]) == 31
  {
    var right := [4, 3, 5, 3, 9, 3];
    assert Count(right, 3) == 3 && Count(right, 4) == 1;
    assert Count(right, 2) == 0 && Count(right, 1) == 0;
  }
}

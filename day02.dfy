// Day 2, "Red-Nosed Reports" (2/src/main.rs and the library variant of the
// problem dampener in 2/src/ex_2.rs): reports of `i32` levels are safe when
// they move in one direction by steps of 1 to 3, and with the dampener when
// removing one level makes them so.
module Day02 {
  import opened Wrappers
  import opened Text

  const I32_MIN: int := -0x8000_0000
  const I32_MAX: int := 0x7FFF_FFFF

  type Report = seq<int>

  // ---------------------------------------------------------------- parse_input

  /** `take_while(|t| t != "#")`: the tokens before the first comment marker. */
  function BeforeComment(toks: seq<string>): (r: seq<string>)
    ensures r <= toks && "#" !in r
    ensures |r| == |toks| || toks[|r|] == "#"
  {
    if toks == [] || toks[0] == "#" then [] else [toks[0]] + BeforeComment(toks[1..])
  }

  /** `filter_map(|t| t.parse::<i32>().ok())`: the tokens that are `i32`s. */
  function Levels(toks: seq<string>): (r: Report)
    ensures |r| <= |toks|
    ensures forall i :: 0 <= i < |r| ==> I32_MIN <= r[i] <= I32_MAX
  {
    if toks == [] then []
    else match ParseInt(toks[0], I32_MIN, I32_MAX)
      case None => Levels(toks[1..])
      case Some(v) => [v] + Levels(toks[1..])
  }

  /** One line: the `i32` tokens before the first "#"; every level is an
      `i32` and there are no more levels than tokens. */
  function ParseReport(line: string): (r: Report)
    ensures |r| <= |SplitWhitespace(line)|
    ensures forall i :: 0 <= i < |r| ==> I32_MIN <= r[i] <= I32_MAX
  {
    Levels(BeforeComment(SplitWhitespace(line)))
  }

  /** `parse_input`: the whole input trimmed, then one report per line. */
  function ParseInput(input: string): (r: seq<Report>)
    ensures |r| == |Lines(Trim(input))|
    ensures forall i, j :: 0 <= i < |r| && 0 <= j < |r[i]| ==> I32_MIN <= r[i][j] <= I32_MAX
  {
    var ls := Lines(Trim(input));
    seq(|ls|, i requires 0 <= i < |ls| => ParseReport(ls[i]))
  }

  /** `ex_1_empty_input`: the empty input holds no reports. */
  lemma ParseEmpty()
    ensures ParseInput("") == []
  {
    assert Trim("") == [];
  }

  /** Levels is a filter: it distributes over concatenation, keeps a token
      that parses and drops one that does not. */
  lemma {:induction false} LevelsAppend(a: seq<string>, b: seq<string>)
    ensures Levels(a + b) == Levels(a) + Levels(b)
  {
    if a == [] {
      assert a + b == b;
    } else {
      assert (a + b)[1..] == a[1..] + b;
      LevelsAppend(a[1..], b);
    }
  }

  lemma LevelsOne(t: string)
    ensures ParseInt(t, I32_MIN, I32_MAX).None? ==> Levels([t]) == []
    ensures ParseInt(t, I32_MIN, I32_MAX).Some? ==> Levels([t]) == [ParseInt(t, I32_MIN, I32_MAX).value]
  {
    assert [t][1..] == [];
  }

  /** Everything from the first "#" token on is ignored. */
  lemma {:induction false} CommentIgnored(toks: seq<string>, comment: seq<string>)
    requires "#" !in toks
    ensures BeforeComment(toks + ["#"] + comment) == toks
  {
    if toks != [] {
      assert (toks + ["#"] + comment)[1..] == toks[1..] + ["#"] + comment;
      CommentIgnored(toks[1..], comment);
    }
  }

  /** On a line of space-separated tokens, a "#" token ends the report. */
  lemma CommentLine(toks: seq<string>, comment: seq<string>)
    requires forall i :: 0 <= i < |toks| ==> toks[i] != [] && NoWhitespace(toks[i])
    requires forall i :: 0 <= i < |comment| ==> comment[i] != [] && NoWhitespace(comment[i])
    requires "#" !in toks
    ensures ParseReport(Join(toks + ["#"] + comment, ' ')) == Levels(toks)
  {
    var all := toks + ["#"] + comment;
    assert forall i :: 0 <= i < |all| ==> all[i] != [] && NoWhitespace(all[i]) by {
      forall i | 0 <= i < |all| ensures all[i] != [] && NoWhitespace(all[i]) {
        if i < |toks| { assert all[i] == toks[i]; }
        else if i > |toks| { assert all[i] == comment[i - |toks| - 1]; }
      }
    }
    SplitWhitespaceJoin(all);
    CommentIgnored(toks, comment);
  }

  /** Levels written out in decimal, one token each. */
  function Tokens(xs: seq<int>): (r: seq<string>)
    ensures |r| == |xs|
    ensures forall i :: 0 <= i < |xs| ==> r[i] == IntToString(xs[i])
  {
    if xs == [] then [] else [IntToString(xs[0])] + Tokens(xs[1..])
  }

  lemma IntTokenShape(n: int)
    ensures IntToString(n) != [] && NoWhitespace(IntToString(n)) && IntToString(n) != "#"
  {
    var s := NatToString(if n < 0 then -n else n);
    assert IsDigit(s[0]);
    if n < 0 {
      assert IntToString(n) == "-" + s;
      assert forall i :: 1 <= i < |IntToString(n)| ==> IntToString(n)[i] == s[i - 1];
    }
  }

  /** Printed `i32` levels parse back to the same report. */
  lemma {:induction false} LevelsOfTokens(xs: seq<int>)
    requires forall i :: 0 <= i < |xs| ==> I32_MIN <= xs[i] <= I32_MAX
    ensures Levels(Tokens(xs)) == xs
  {
    if xs != [] {
      LevelsOfTokens(xs[1..]);
      ParseIntToString(xs[0], I32_MIN, I32_MAX);
      assert Tokens(xs)[1..] == Tokens(xs[1..]);
      assert xs == [xs[0]] + xs[1..];
    }
  }

  /** `ignores_comments`: "1 2 3 4 5 # 6 7 8 9" reads as [1, 2, 3, 4, 5]. */
  lemma CommentExample()
    ensures ParseReport(Join(Tokens([1, 2, 3, 4, 5]) + ["#"] + Tokens([6, 7, 8, 9]), ' ')) == [1, 2, 3, 4, 5]
  {
    var toks := Tokens([1, 2, 3, 4, 5]);
    var comment := Tokens([6, 7, 8, 9]);
    forall i | 0 <= i < |toks| ensures toks[i] != [] && NoWhitespace(toks[i]) && toks[i] != "#" {
      IntTokenShape([1, 2, 3, 4, 5][i]);
    }
    forall i | 0 <= i < |comment| ensures comment[i] != [] && NoWhitespace(comment[i]) {
      IntTokenShape([6, 7, 8, 9][i]);
    }
    CommentLine(toks, comment);
    LevelsOfTokens([1, 2, 3, 4, 5]);
  }

  // ---------------------------------------------------------------- the safety rule

  function Abs(x: int): nat
  {
    if x < 0 then -x else x
  }

  /** Level `t + 1` minus level `t`. */
  function Delta(r: Report, t: nat): int
    requires t + 1 < |r|
  {
    r[t + 1] - r[t]
  }

  /** `is_delta_ok`: a step of 1 to 3 in the given direction. */
  predicate DeltaOk(increasing: bool, delta: int)
  {
    ((increasing && delta > 0) || (!increasing && delta < 0)) && 1 <= Abs(delta) <= 3
  }

  predicate DeltasOk(r: Report, increasing: bool)
  {
    forall t :: 0 <= t < |r| - 1 ==> DeltaOk(increasing, Delta(r, t))
  }

  /** The check of ex_1: the direction is that of the first two levels and
      every adjacent step has to follow it. The source reads `report[1]`, so
      a report needs two levels. */
  predicate Safe(r: Report)
    requires |r| >= 2
    ensures Safe(r) ==> forall t :: 0 <= t < |r| - 1 ==> 1 <= Abs(Delta(r, t)) <= 3 && (Delta(r, t) > 0 <==> r[1] > r[0])
  {
    DeltasOk(r, r[1] > r[0])
  }

  /** A report whose steps all go one way fixes that way at every pair. */
  lemma DirectionAtAnyPair(r: Report, increasing: bool, t: nat)
    requires DeltasOk(r, increasing) && t + 1 < |r|
    ensures increasing == (r[t + 1] > r[t])
  {
    assert DeltaOk(increasing, Delta(r, t));
  }

  /** Safe means: strictly increasing by steps of at most 3, or strictly
      decreasing by steps of at most 3. */
  lemma SafeIff(r: Report)
    requires |r| >= 2
    ensures Safe(r) <==> DeltasOk(r, true) || DeltasOk(r, false)
  {
    if DeltasOk(r, true) { DirectionAtAnyPair(r, true, 0); }
    if DeltasOk(r, false) { DirectionAtAnyPair(r, false, 0); }
  }

  /** A report with two equal neighbours is never safe. */
  lemma EqualNeighboursUnsafe(r: Report, t: nat)
    requires |r| >= 2 && t + 1 < |r| && r[t] == r[t + 1]
    ensures !Safe(r)
  {
    assert !DeltaOk(r[1] > r[0], Delta(r, t));
  }

  /** Two levels are safe exactly when they differ by 1 to 3. */
  lemma TwoLevels(a: int, b: int)
    ensures Safe([a, b]) <==> 1 <= Abs(b - a) <= 3
  {
    assert Delta([a, b], 0) == b - a;
  }

  /** Dropping the last level of a safe report of three or more levels keeps
      it safe. */
  lemma SafeWithoutLast(r: Report)
    requires |r| >= 3 && Safe(r)
    ensures Safe(Remove(r, |r| - 1))
  {
    var s := Remove(r, |r| - 1);
    forall t | 0 <= t < |s| - 1 ensures DeltaOk(s[1] > s[0], Delta(s, t)) {
      assert Delta(s, t) == Delta(r, t);
    }
  }

  /** `ex_1::count_safe_reports`. */
  function CountSafe(reports: seq<Report>): (n: nat)
    requires forall i :: 0 <= i < |reports| ==> |reports[i]| >= 2
    ensures n <= |reports|
  {
    if reports == [] then 0 else (if Safe(reports[0]) then 1 else 0) + CountSafe(reports[1..])
  }

  lemma {:induction false} CountSafeAppend(a: seq<Report>, b: seq<Report>)
    requires forall i :: 0 <= i < |a| ==> |a[i]| >= 2
    requires forall i :: 0 <= i < |b| ==> |b[i]| >= 2
    ensures CountSafe(a + b) == CountSafe(a) + CountSafe(b)
  {
    if a == [] {
      assert a + b == b;
    } else {
      assert (a + b)[1..] == a[1..] + b;
      CountSafeAppend(a[1..], b);
    }
  }

  /** `ex_1_example`: two of the six sample reports are safe. */
  lemma CountSafeExample()
    ensures CountSafe([[7, 6, 4, 2, 1], [1, 2, 7, 8, 9], [9, 7, 6, 2, 1],
                       [1, 3, 2, 4, 5], [8, 6, 4, 4, 1], [1, 3, 6, 7, 9]]) == 2
  {
    assert Safe([7, 6, 4, 2, 1]);
    assert !Safe([1, 2, 7, 8, 9]) by { assert !DeltaOk(true, Delta([1, 2, 7, 8, 9], 1)); }
    assert !Safe([9, 7, 6, 2, 1]) by { assert !DeltaOk(false, Delta([9, 7, 6, 2, 1], 2)); }
    assert !Safe([1, 3, 2, 4, 5]) by { assert !DeltaOk(true, Delta([1, 3, 2, 4, 5], 1)); }
    EqualNeighboursUnsafe([8, 6, 4, 4, 1], 2);
    assert Safe([1, 3, 6, 7, 9]);
  }

  // ---------------------------------------------------------------- removing one level

  /** The report with the level at index `k` removed. */
  function Remove(r: Report, k: nat): (s: Report)
    requires k < |r|
    ensures |s| == |r| - 1
    ensures forall u :: 0 <= u < k ==> s[u] == r[u]
    ensures forall u :: k <= u < |s| ==> s[u] == r[u + 1]
  {
    r[..k] + r[k + 1..]
  }

  /** `ex_2_brute`: some single removal leaves an ex_1-safe report. Every
      derived report is read at index 1, so the source needs three levels
      or none. */
  predicate BruteSafe(r: Report)
    requires |r| == 0 || |r| >= 3
    ensures BruteSafe(r) ==> |r| >= 3
    ensures |r| >= 3 && Safe(r[1..]) ==> BruteSafe(r)
  {
    assert |r| >= 3 ==> Remove(r, 0) == r[1..];
    exists k :: 0 <= k < |r| && Safe(Remove(r, k))
  }

  function CountBrute(reports: seq<Report>): (n: nat)
    requires forall i :: 0 <= i < |reports| ==> |reports[i]| == 0 || |reports[i]| >= 3
    ensures n <= |reports|
  {
    if reports == [] then 0 else (if BruteSafe(reports[0]) then 1 else 0) + CountBrute(reports[1..])
  }

  // ---------------------------------------------------------------- the dampener (2/src/ex_2.rs)

  /** What `is_safe` of 2/src/ex_2.rs decides: a report of two or more levels
      that is safe as it is, or, when the quota allows a removal and there
      are at least three levels, one that some single removal makes safe. */
  predicate DampenedSafe(r: Report, quota: int)
    ensures DampenedSafe(r, quota) ==> |r| >= 2
    ensures quota <= 0 ==> (DampenedSafe(r, quota) <==> |r| >= 2 && Safe(r))
  {
    |r| >= 2 && (Safe(r) || (quota > 0 && |r| >= 3 && exists k :: 0 <= k < |r| && Safe(Remove(r, k))))
  }

  /** The direction the library dampener settles on: that of the first
      adjacent pair, from `t` on, whose step is 1 to 3 in size. */
  function FirstDirectionFrom(s: Report, t: nat): Option<bool>
    decreases |s| - t
  {
    if t + 1 >= |s| then None
    else if 1 <= Abs(Delta(s, t)) <= 3 then Some(Delta(s, t) > 0)
    else FirstDirectionFrom(s, t + 1)
  }

  /** Checking against the first usable direction decides safety. */
  lemma FirstDirectionDecides(s: Report)
    requires |s| >= 2
    ensures Safe(s) <==> FirstDirectionFrom(s, 0).Some? && DeltasOk(s, FirstDirectionFrom(s, 0).value)
  {
    if Safe(s) {
      assert DeltaOk(s[1] > s[0], Delta(s, 0));
    }
    if FirstDirectionFrom(s, 0).Some? && DeltasOk(s, FirstDirectionFrom(s, 0).value) {
      DirectionAtAnyPair(s, FirstDirectionFrom(s, 0).value, 0);
    }
  }

  /** The windows loop: every step follows the given direction. */
  method AllDeltasOk(r: Report, increasing: bool) returns (valid: bool)
    ensures valid == DeltasOk(r, increasing)
  {
    valid := true;
    var t := 0;
    while t + 1 < |r|
      invariant t <= |r|
      invariant forall u :: 0 <= u < t && u + 1 < |r| ==> DeltaOk(increasing, Delta(r, u))
    {
      if !DeltaOk(increasing, r[t + 1] - r[t]) {
        assert !DeltaOk(increasing, Delta(r, t));
        valid := false;
        return;
      }
      t := t + 1;
    }
  }

  /** The first inner loop of 2/src/ex_2.rs: walk the report without index
      `skip` and take the direction of the first step of size 1 to 3. */
  method SkipDirection(r: Report, skip: nat) returns (increasing: Option<bool>)
    requires skip < |r|
    ensures increasing == FirstDirectionFrom(Remove(r, skip), 0)
  {
    ghost var s := Remove(r, skip);
    var prev: Option<int> := None;
    var next: Option<int> := None;
    increasing := None;
    ghost var c := 0;
    for i := 0 to |r|
      invariant c == if i <= skip then i else i - 1
      invariant next.None? && increasing.None?
      invariant prev == if c == 0 then None else Some(s[c - 1])
      invariant c >= 1 ==> FirstDirectionFrom(s, 0) == FirstDirectionFrom(s, c - 1)
    {
      if i != skip {
        var curr := r[i];
        assert curr == s[c];
        if prev.None? {
          prev := Some(curr);
        } else if next.None? {
          next := Some(curr);
          var delta := curr - prev.value;
          assert delta == Delta(s, c - 1);
          if 1 <= Abs(delta) <= 3 {
            increasing := Some(delta > 0);
            return;
          }
          prev := Some(curr);
          next := None;
        }
        c := c + 1;
      }
    }
  }

  /** The second inner loop: every step of the report without index `skip`
      follows the direction. */
  method SkipValid(r: Report, skip: nat, increasing: bool) returns (valid: bool)
    requires skip < |r|
    ensures valid == DeltasOk(Remove(r, skip), increasing)
  {
    ghost var s := Remove(r, skip);
    valid := true;
    var prev: Option<int> := None;
    ghost var c := 0;
    for i := 0 to |r|
      invariant c == if i <= skip then i else i - 1
      invariant prev == if c == 0 then None else Some(s[c - 1])
      invariant forall t :: 0 <= t < c - 1 ==> DeltaOk(increasing, Delta(s, t))
    {
      if i != skip {
        var curr := r[i];
        assert curr == s[c];
        if prev.Some? {
          assert curr - prev.value == Delta(s, c - 1);
          if !DeltaOk(increasing, curr - prev.value) {
            valid := false;
            return;
          }
        }
        prev := Some(curr);
        c := c + 1;
      }
    }
  }

  /** `is_safe` of 2/src/ex_2.rs. */
  method IsSafe(r: Report, quota: int) returns (safe: bool)
    ensures safe == DampenedSafe(r, quota)
  {
    if |r| < 2 {
      return false;
    }
    var allValid := AllDeltasOk(r, r[1] > r[0]);
    if allValid {
      return true;
    }
    if quota > 0 && |r| >= 3 {
      for skip := 0 to |r|
        invariant forall k :: 0 <= k < skip ==> !Safe(Remove(r, k))
      {
        var increasing := SkipDirection(r, skip);
        FirstDirectionDecides(Remove(r, skip));
        if increasing.Some? {
          var valid := SkipValid(r, skip, increasing.value);
          if valid {
            return true;
          }
        }
      }
    }
    return false;
  }

  /** On every report of three or more levels the library dampener agrees
      with the brute force, which is what the analyze tool compares. */
  lemma DampenedMatchesBrute(r: Report)
    requires |r| >= 3
    ensures DampenedSafe(r, 1) == BruteSafe(r)
  {
    if Safe(r) {
      SafeWithoutLast(r);
    }
  }

  /** `count_safe_reports_with_problem_dampener` over the library `is_safe`. */
  function DampenedCount(reports: seq<Report>): (n: nat)
    ensures n <= |reports|
  {
    if reports == [] then 0
    else DampenedCount(reports[..|reports| - 1]) + (if DampenedSafe(reports[|reports| - 1], 1) then 1 else 0)
  }

  method CountDampened(reports: seq<Report>) returns (n: nat)
    ensures n == DampenedCount(reports)
  {
    n := 0;
    for i := 0 to |reports|
      invariant n == DampenedCount(reports[..i])
    {
      var safe := IsSafe(reports[i], 1);
      assert reports[..i + 1][..i] == reports[..i];
      if safe {
        n := n + 1;
      }
    }
    assert reports[..|reports|] == reports;
  }

  /** Brute force and dampener count alike whenever no report has one or two
      levels. */
  lemma {:induction false} DampenedCountMatchesBrute(reports: seq<Report>)
    requires forall i :: 0 <= i < |reports| ==> |reports[i]| == 0 || |reports[i]| >= 3
    ensures DampenedCount(reports) == CountBrute(reports)
  {
    if reports != [] {
      var init, last := reports[..|reports| - 1], reports[|reports| - 1];
      DampenedCountMatchesBrute(init);
      if |last| >= 3 {
        DampenedMatchesBrute(last);
      }
      CountBruteSnoc(init, last);
      assert init + [last] == reports;
    }
  }

  lemma {:induction false} CountBruteSnoc(reports: seq<Report>, last: Report)
    requires forall i :: 0 <= i < |reports| ==> |reports[i]| == 0 || |reports[i]| >= 3
    requires |last| == 0 || |last| >= 3
    ensures CountBrute(reports + [last]) == CountBrute(reports) + (if BruteSafe(last) then 1 else 0)
  {
    if reports == [] {
      assert [] + [last] == [last];
    } else {
      assert (reports + [last])[1..] == reports[1..] + [last];
      CountBruteSnoc(reports[1..], last);
    }
  }

  /** The dampener tests of 2/src/main.rs, decided by the library rule. */
  lemma DampenerExamples()
    ensures DampenedSafe([3, 1, 2, 4, 5], 1)
    ensures DampenedSafe([1, 2, 4, 5, 3], 1)
    ensures DampenedSafe([4, 5, 3], 1)
    ensures DampenedSafe([4, 3, 5, 2], 1)
    ensures DampenedSafe([4, 3, 5, 6], 1)
    ensures !DampenedSafe([4, 3, 5, 3], 1)
  {
    assert Safe(Remove([3, 1, 2, 4, 5], 0));
    assert Safe(Remove([1, 2, 4, 5, 3], 4));
    assert Safe(Remove([4, 5, 3], 1));
    assert Safe(Remove([4, 3, 5, 2], 2));
    assert Safe(Remove([4, 3, 5, 6], 1));
    NoRemovalHelps4353();
  }

  lemma NoRemovalHelps4353()
    ensures forall k :: 0 <= k < 4 ==> !Safe(Remove([4, 3, 5, 3], k))
    ensures !Safe([4, 3, 5, 3])
  {
    var r := [4, 3, 5, 3];
    assert Remove(r, 0) == [3, 5, 3] && !DeltaOk(true, Delta([3, 5, 3], 1));
    assert Remove(r, 1) == [4, 5, 3] && !DeltaOk(true, Delta([4, 5, 3], 1));
    assert Remove(r, 2) == [4, 3, 3] && !DeltaOk(false, Delta([4, 3, 3], 1));
    assert Remove(r, 3) == [4, 3, 5] && !DeltaOk(false, Delta([4, 3, 5], 1));
    assert !DeltaOk(false, Delta(r, 1));
  }

  // ---------------------------------------------------------------- the dampener inlined in 2/src/main.rs

  /** What the `ex_2::is_safe` of 2/src/main.rs decides as written: the
      removal of index 0 is never accepted, because its walk starts with the
      level at index 1 on both sides of the first step. */
  predicate InlineDampenedSafe(r: Report, quota: int)
    ensures InlineDampenedSafe(r, quota) ==> DampenedSafe(r, quota)
  {
    |r| >= 2 && (Safe(r) || (quota > 0 && |r| >= 3 && exists k :: 1 <= k < |r| && Safe(Remove(r, k))))
  }

  /** The inner walk of the inlined dampener for removal index `i`. */
  method InlineSkipValid(r: Report, i: nat, increasing: bool) returns (valid: bool)
    requires |r| >= 3 && i < |r|
    ensures valid == (i >= 1 && DeltasOk(Remove(r, i), increasing))
  {
    ghost var s := Remove(r, i);
    valid := true;
    var prev := if i == 0 then r[1] else r[0];
    ghost var c := 1;
    for j := 1 to |r|
      invariant i == 0 ==> j == 1 && prev == r[1]
      invariant i >= 1 ==> c == (if j <= i then j else j - 1) && prev == s[c - 1]
      invariant i >= 1 ==> forall t :: 0 <= t < c - 1 ==> DeltaOk(increasing, Delta(s, t))
    {
      if j != i {
        var curr := r[j];
        var delta := curr - prev;
        if i >= 1 {
          assert curr == s[c] && delta == Delta(s, c - 1);
        }
        if !DeltaOk(increasing, delta) {
          valid := false;
          return;
        }
        prev := curr;
        c := c + 1;
      }
    }
  }

  /** `ex_2::is_safe` of 2/src/main.rs, as written. */
  method InlineIsSafe(r: Report, quota: int) returns (safe: bool)
    ensures safe == InlineDampenedSafe(r, quota)
  {
    if |r| < 2 {
      return false;
    }
    var allValid := AllDeltasOk(r, r[1] > r[0]);
    if allValid {
      return true;
    }
    if quota > 0 {
      for i := 0 to |r|
        invariant forall k :: 1 <= k < i && |r| >= 3 ==> !Safe(Remove(r, k))
      {
        if |r| - 1 >= 2 {
          var increasing :=
            if i == 0 then r[2] > r[1]
            else if i == |r| - 1 then r[|r| - 2] > r[|r| - 3]
            else r[i + 1] > r[i - 1];
          var valid := InlineSkipValid(r, i, increasing);
          if i >= 1 {
            InlineDirection(r, i);
          }
          if valid {
            return true;
          }
        }
      }
    }
    return false;
  }

  /** For a removal index other than 0, the direction the inlined dampener
      picks is that of an adjacent pair of the shortened report, so checking
      against it decides safety. */
  lemma InlineDirection(r: Report, i: nat)
    requires |r| >= 3 && 1 <= i < |r|
    ensures var s := Remove(r, i);
      var inc := if i == |r| - 1 then r[|r| - 2] > r[|r| - 3] else r[i + 1] > r[i - 1];
      Safe(s) <==> DeltasOk(s, inc)
  {
    var s := Remove(r, i);
    var t := if i == |r| - 1 then |r| - 3 else i - 1;
    assert s[t] == (if i == |r| - 1 then r[|r| - 3] else r[i - 1]);
    assert s[t + 1] == (if i == |r| - 1 then r[|r| - 2] else r[i + 1]);
    if Safe(s) {
      DirectionAtAnyPair(s, s[1] > s[0], t);
    }
    if DeltasOk(s, s[t + 1] > s[t]) {
      DirectionAtAnyPair(s, s[t + 1] > s[t], 0);
    }
  }

  /** The test `ex_2_problem_at_the_start` expects "3 1 2 4 5" to be safe,
      since dropping the leading 3 leaves 1 2 4 5. The brute force and the
      library dampener agree; the inlined dampener rejects it. */
  lemma InlineMissesFirstRemoval()
    ensures BruteSafe([3, 1, 2, 4, 5]) && DampenedSafe([3, 1, 2, 4, 5], 1)
    ensures !InlineDampenedSafe([3, 1, 2, 4, 5], 1)
  {
    var r := [3, 1, 2, 4, 5];
    assert Safe(Remove(r, 0));
    assert !DeltaOk(false, Delta(r, 1));
    assert Remove(r, 1) == [3, 2, 4, 5] && !DeltaOk(false, Delta([3, 2, 4, 5], 1));
    assert Remove(r, 2) == [3, 1, 4, 5] && !DeltaOk(false, Delta([3, 1, 4, 5], 1));
    assert Remove(r, 3) == [3, 1, 2, 5] && !DeltaOk(false, Delta([3, 1, 2, 5], 1));
    assert Remove(r, 4) == [3, 1, 2, 4] && !DeltaOk(false, Delta([3, 1, 2, 4], 1));
  }
}

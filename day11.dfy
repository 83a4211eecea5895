// Day 11: stones that change every time one blinks. A 0 becomes 1, a stone
// with an even number of digits splits into its high and low halves, any
// other stone is multiplied by 2024. `solve_ex1` rebuilds the row once per
// blink; `memoized::solve` counts with a stack of (stone, blinks left).
module Day11 {
  import opened Wrappers
  import opened Text

  const U64_BOUND: nat := 0x1_0000_0000_0000_0000

  // ---------------------------------------------------------------- parsing

  function ParseStone(w: string): Option<nat>
  {
    ParseNat(w, U64_BOUND)
  }

  /** `parse_input`: the trimmed input split on single spaces; any piece that
      is not a `u64` panics on `expect`. */
  function ParseStones(input: string): (r: Option<seq<nat>>)
    ensures r.Some? ==> |r.value| >= 1 && forall i :: 0 <= i < |r.value| ==> r.value[i] < U64_BOUND
  {
    ParseEach(Split(Trim(input), ' '), ParseStone)
  }

  function Format(stones: seq<nat>): string
  {
    Join(Decimals(stones), ' ')
  }

  /** A row of `u64` stones written with single spaces is parsed back. */
  lemma ParseFormat(stones: seq<nat>)
    requires |stones| >= 1 && forall i :: 0 <= i < |stones| ==> stones[i] < U64_BOUND
    ensures ParseStones(Format(stones)) == Some(stones)
  {
    var ts := Decimals(stones);
    var s := Join(ts, ' ');
    JoinEnds(ts, ' ');
    VisibleTrimmed(s);
    DecimalsParse(stones);
    SplitJoin(ts, ' ');
    var r := ParseEach(ts, ParseStone);
    assert r.value == stones;
  }

  function Decimals(stones: seq<nat>): (ts: seq<string>)
    ensures |ts| == |stones|
  {
    seq(|stones|, i requires 0 <= i < |stones| => NatToString(stones[i]))
  }

  lemma DecimalsParse(stones: seq<nat>)
    requires forall i :: 0 <= i < |stones| ==> stones[i] < U64_BOUND
    ensures forall i :: 0 <= i < |stones| ==> Decimals(stones)[i] != [] && ' ' !in Decimals(stones)[i]
    ensures forall i :: 0 <= i < |stones| ==> ParseStone(Decimals(stones)[i]) == Some(stones[i])
  {
    var ts := Decimals(stones);
    forall i | 0 <= i < |ts| ensures ts[i] != [] && ' ' !in ts[i] && ParseStone(ts[i]) == Some(stones[i]) {
      DecimalHasNoSpace(stones[i]);
      ParseNatToString(stones[i], U64_BOUND);
    }
  }

  lemma DecimalHasNoSpace(n: nat)
    ensures ' ' !in NatToString(n)
  {
    var d := NatToString(n);
    assert forall k :: 0 <= k < |d| ==> IsDigit(d[k]);
  }

  /** Two spaces in a row leave an empty piece, which does not parse. */
  lemma DoubleSpaceFails(a: string, b: string)
    requires a != [] && b != [] && ' ' !in a
    requires !IsWhitespace(a[0]) && !IsWhitespace(b[|b| - 1])
    ensures ParseStones(a + "  " + b) == None
  {
    var s := a + "  " + b;
    assert s[0] == a[0] && s[|s| - 1] == b[|b| - 1];
    VisibleTrimmed(s);
    assert s == a + [' '] + (" " + b);
    SplitAfterPiece(a, ' ', " " + b);
    assert Split(" " + b, ' ')[0] == [];
    var ps := Split(s, ' ');
    assert ps[1] == [];
    assert ParseStone(ps[1]) == None;
  }

  // ---------------------------------------------------------------- digits

  function Pow10(k: nat): (r: nat)
    ensures r >= 1
  {
    if k == 0 then 1 else 10 * Pow10(k - 1)
  }

  /** `count_digits`, as an exact count (the source goes through `log10`). */
  function NumDigits(n: nat): (d: nat)
    ensures d >= 1
  {
    if n < 10 then 1 else 1 + NumDigits(n / 10)
  }

  /** The digit count is the length of the decimal string (`test_digits`). */
  lemma {:induction false} NumDigitsString(n: nat)
    ensures NumDigits(n) == |NatToString(n)|
  {
    if n >= 10 {
      NumDigitsString(n / 10);
    }
  }

  /** A number with d digits lies in [10^(d-1), 10^d) (from 1 on). */
  lemma {:induction false} NumDigitsBounds(n: nat)
    ensures n < Pow10(NumDigits(n))
    ensures n >= 1 ==> Pow10(NumDigits(n) - 1) <= n
  {
    if n >= 10 {
      NumDigitsBounds(n / 10);
    }
  }

  /** Conversely, a number in [10^(k-1), 10^k) has k digits. */
  lemma {:induction false} NumDigitsOfRange(n: nat, k: nat)
    requires k >= 1 && Pow10(k - 1) <= n < Pow10(k)
    ensures NumDigits(n) == k
  {
    if k > 1 {
      NumDigitsOfRange(n / 10, k - 1);
    }
  }

  // ---------------------------------------------------------------- transform

  /** `transform`: the one or two stones a stone turns into. */
  function Transform(stone: nat): (r: seq<nat>)
    ensures 1 <= |r| <= 2
  {
    if stone == 0 then [1]
    else
      var d := NumDigits(stone);
      if d % 2 == 0 then [stone / Pow10(d / 2), stone % Pow10(d / 2)] else [stone * 2024]
  }

  /** The first rule: a 0 becomes a 1. */
  lemma ZeroBecomesOne()
    ensures Transform(0) == [1]
  {
  }

  lemma {:induction false} Pow10Add(a: nat, b: nat)
    ensures Pow10(a + b) == Pow10(a) * Pow10(b)
  {
    if a > 0 {
      Pow10Add(a - 1, b);
    }
  }

  /** The second rule: a stone with 2k digits splits into its high half (with
      exactly k digits) and its low half (the last k digits, leading zeros
      dropped), and those halves written side by side give the stone back. */
  lemma SplitHalves(stone: nat)
    requires stone > 0 && NumDigits(stone) % 2 == 0
    ensures var k := NumDigits(stone) / 2;
            var r := Transform(stone);
            |r| == 2 && r[0] * Pow10(k) + r[1] == stone && r[1] < Pow10(k) && NumDigits(r[0]) == k
  {
    var k := NumDigits(stone) / 2;
    var r := Transform(stone);
    var m := Pow10(k);
    assert r == [stone / m, stone % m];
    DivMod(stone, m);
    NumDigitsBounds(stone);
    Pow10Add(k, k);
    Pow10Add(k - 1, k);
    assert Pow10(k - 1) * m <= stone < m * m;
    DivBounds(stone, m, Pow10(k - 1), m);
    NumDigitsOfRange(r[0], k);
  }

  /** lo * m <= n < hi * m gives lo <= n / m < hi. */
  lemma DivBounds(n: nat, m: nat, lo: nat, hi: nat)
    requires m > 0 && lo * m <= n < hi * m
    ensures lo <= n / m < hi
  {
    var q, r := n / m, n % m;
    assert n == q * m + r && r < m;
    if q < lo {
      MulLeq(q, lo - 1, m);
      MulPred(lo, m);
      assert false;
    }
    if q >= hi {
      MulLeq(hi, q, m);
      assert false;
    }
  }

  lemma DivMod(n: nat, m: nat)
    requires m > 0
    ensures (n / m) * m + n % m == n && n % m < m
  {
  }

  lemma MulPred(a: nat, m: nat)
    requires a >= 1
    ensures (a - 1) * m + m == a * m
  {
  }

  lemma MulLeq(a: nat, b: nat, m: nat)
    requires a <= b
    ensures a * m <= b * m
  {
    assert b * m - a * m == (b - a) * m;
  }

  /** The third rule: any other stone is multiplied by 2024. */
  lemma OddMultiplies(stone: nat)
    requires stone > 0 && NumDigits(stone) % 2 == 1
    ensures Transform(stone) == [stone * 2024]
  {
  }

  lemma TransformExamples()
    ensures Transform(1) == [2024] && Transform(10) == [1, 0] && Transform(1000) == [10, 0]
    ensures Transform(125) == [253000] && Transform(17) == [1, 7]
  {
    assert NumDigits(1000) == 4 && Pow10(2) == 100;
    assert NumDigits(125) == 3 && NumDigits(17) == 2 && Pow10(1) == 10;
  }

  // ---------------------------------------------------------------- ex1

  /** One blink over the whole row, stones kept in order: every stone turns
      into one or two. */
  function Blink(stones: seq<nat>): (r: seq<nat>)
    ensures |stones| <= |r| <= 2 * |stones|
  {
    if stones == [] then [] else Blink(stones[..|stones| - 1]) + Transform(stones[|stones| - 1])
  }

  /** The row after n blinks. */
  function Iterate(stones: seq<nat>, n: nat): seq<nat>
    decreases n
  {
    if n == 0 then stones else Iterate(Blink(stones), n - 1)
  }

  /** The count never decreases from one blink to the next. */
  lemma {:induction false} IterateGrows(stones: seq<nat>, n: nat)
    ensures |stones| <= |Iterate(stones, n)| <= |Iterate(stones, n + 1)|
    decreases n
  {
    if n > 0 {
      IterateGrows(Blink(stones), n - 1);
    } else {
      assert Iterate(stones, 1) == Iterate(Blink(stones), 0);
    }
  }

  lemma BlinkExample()
    ensures Blink([125, 17]) == [253000, 1, 7]
  {
    TransformExamples();
    assert [125, 17][..1] == [125];
    assert Blink([125]) == [253000];
  }

  /** The inner loop of `solve_ex1`: one new row. */
  method BlinkOnce(stones: seq<nat>) returns (next: seq<nat>)
    ensures next == Blink(stones)
  {
    next := [];
    var i := 0;
    while i < |stones|
      invariant 0 <= i <= |stones|
      invariant next == Blink(stones[..i])
    {
      assert stones[..i + 1][..i] == stones[..i];
      next := next + Transform(stones[i]);
      i := i + 1;
    }
    assert stones[..i] == stones;
  }

  /** `solve_ex1`: the number of stones after `iterations` blinks. */
  method SolveEx1(stones: seq<nat>, iterations: nat) returns (count: nat)
    ensures count == |Iterate(stones, iterations)|
  {
    var row := stones;
    var i := 0;
    while i < iterations
      invariant 0 <= i <= iterations
      invariant Iterate(row, iterations - i) == Iterate(stones, iterations)
    {
      row := BlinkOnce(row);
      i := i + 1;
    }
    count := |row|;
  }

  // ---------------------------------------------------------------- memoized

  /** The number of stones one stone becomes after t blinks. */
  function Count(stone: nat, t: nat): (r: nat)
    ensures r >= 1
    decreases t, 0
  {
    if t == 0 then 1 else CountAll(Transform(stone), t - 1)
  }

  function CountAll(stones: seq<nat>, t: nat): (r: nat)
    ensures r >= |stones|
    decreases t, |stones| + 1
  {
    if stones == [] then 0 else CountAll(stones[..|stones| - 1], t) + Count(stones[|stones| - 1], t)
  }

  lemma {:induction false} CountAllAppend(a: seq<nat>, b: seq<nat>, t: nat)
    ensures CountAll(a + b, t) == CountAll(a, t) + CountAll(b, t)
  {
    if b != [] {
      CountAllAppend(a, b[..|b| - 1], t);
      assert (a + b)[..|a + b| - 1] == a + b[..|b| - 1];
    } else {
      assert a + b == a;
    }
  }

  /** Counting one blink later is counting the blinked row. */
  lemma {:induction false} CountAllBlink(stones: seq<nat>, t: nat)
    ensures CountAll(stones, t + 1) == CountAll(Blink(stones), t)
  {
    if stones != [] {
      var init, last := stones[..|stones| - 1], stones[|stones| - 1];
      CountAllBlink(init, t);
      CountAllAppend(Blink(init), Transform(last), t);
    }
  }

  lemma {:induction false} CountAllZero(stones: seq<nat>)
    ensures CountAll(stones, 0) == |stones|
  {
    if stones != [] {
      CountAllZero(stones[..|stones| - 1]);
    }
  }

  /** The per-stone count adds up to the length of the iterated row. */
  lemma {:induction false} IterateCount(stones: seq<nat>, n: nat)
    ensures |Iterate(stones, n)| == CountAll(stones, n)
    decreases n
  {
    if n == 0 {
      CountAllZero(stones);
    } else {
      IterateCount(Blink(stones), n - 1);
      CountAllBlink(stones, n - 1);
      assert Iterate(stones, n) == Iterate(Blink(stones), n - 1);
    }
  }

  /** What the stack entries still stand for. */
  function Pending(stack: seq<(nat, nat)>): nat
  {
    if stack == [] then 0 else Pending(stack[..|stack| - 1]) + Count(stack[|stack| - 1].0, stack[|stack| - 1].1)
  }

  function Pow3(k: nat): (r: nat)
    ensures r >= 1
  {
    if k == 0 then 1 else 3 * Pow3(k - 1)
  }

  /** Termination measure: an entry with t blinks left weighs 3^t, and its
      at most two children weigh 3^(t-1) each. */
  function Weight(stack: seq<(nat, nat)>): nat
  {
    if stack == [] then 0 else Weight(stack[..|stack| - 1]) + Pow3(stack[|stack| - 1].1)
  }

  /** The stack entries for the stones a stone turns into, t blinks left. */
  function Children(stone: nat, t: nat): seq<(nat, nat)>
  {
    Entries(Transform(stone), t)
  }

  function Entries(stones: seq<nat>, t: nat): seq<(nat, nat)>
  {
    seq(|stones|, i requires 0 <= i < |stones| => (stones[i], t))
  }

  lemma {:induction false} PendingAppend(a: seq<(nat, nat)>, b: seq<(nat, nat)>)
    ensures Pending(a + b) == Pending(a) + Pending(b)
    ensures Weight(a + b) == Weight(a) + Weight(b)
  {
    if b != [] {
      PendingAppend(a, b[..|b| - 1]);
      assert (a + b)[..|a + b| - 1] == a + b[..|b| - 1];
    } else {
      assert a + b == a;
    }
  }

  lemma {:induction false} PendingEntries(stones: seq<nat>, t: nat)
    ensures Pending(Entries(stones, t)) == CountAll(stones, t)
  {
    if stones != [] {
      var init := stones[..|stones| - 1];
      PendingEntries(init, t);
      var st := Entries(stones, t);
      assert st[..|st| - 1] == Entries(init, t);
    }
  }

  lemma {:induction false} WeightEntries(stones: seq<nat>, t: nat)
    ensures Weight(Entries(stones, t)) == |stones| * Pow3(t)
  {
    if stones != [] {
      var init := stones[..|stones| - 1];
      WeightEntries(init, t);
      var st := Entries(stones, t);
      assert st[..|st| - 1] == Entries(init, t);
      assert |stones| * Pow3(t) == |init| * Pow3(t) + Pow3(t);
    }
  }

  /** Replacing an entry with t + 1 blinks left by its children keeps what
      the stack stands for and lowers its weight. */
  lemma PushChildren(stack: seq<(nat, nat)>, stone: nat, t: nat)
    ensures Pending(stack + Children(stone, t)) == Pending(stack) + Count(stone, t + 1)
    ensures Weight(stack + Children(stone, t)) < Weight(stack) + Pow3(t + 1)
  {
    var kids := Transform(stone);
    PendingAppend(stack, Children(stone, t));
    PendingEntries(kids, t);
    WeightEntries(kids, t);
    assert |kids| * Pow3(t) < 3 * Pow3(t) by {
      if |kids| == 1 {
        assert |kids| * Pow3(t) == Pow3(t);
      } else {
        assert |kids| * Pow3(t) == 2 * Pow3(t);
      }
    }
  }

  lemma PopLast(stack: seq<(nat, nat)>)
    requires stack != []
    ensures Pending(stack) == Pending(stack[..|stack| - 1]) + Count(stack[|stack| - 1].0, stack[|stack| - 1].1)
    ensures Weight(stack) == Weight(stack[..|stack| - 1]) + Pow3(stack[|stack| - 1].1)
  {
  }

  /** `memoized::solve`: pop the last entry; with no blinks left it is one
      stone, otherwise its transformed stones go back with one blink less.
      It counts exactly what `solve_ex1` counts. */
  method MemoSolve(stones: seq<nat>, iterations: nat) returns (result: nat)
    ensures result == CountAll(stones, iterations)
    ensures result == |Iterate(stones, iterations)|
  {
    result := 0;
    var stack := Entries(stones, iterations);
    PendingEntries(stones, iterations);
    while stack != []
      invariant result + Pending(stack) == CountAll(stones, iterations)
      decreases Weight(stack)
    {
      PopLast(stack);
      var (stone, ttl) := stack[|stack| - 1];
      stack := stack[..|stack| - 1];
      if ttl == 0 {
        result := result + 1;
      } else {
        PushChildren(stack, stone, ttl - 1);
        stack := stack + Children(stone, ttl - 1);
      }
    }
    IterateCount(stones, iterations);
  }
}

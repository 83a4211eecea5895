// Day 22: Monkey Market. Each buyer's secret number evolves by a fixed
// pseudo-random step; part 1 sums the 2000th secrets, part 2 looks for the
// run of four price changes that earns the most bananas.
//
// Secrets are `i64`s in the source. The model keeps them as mathematical
// integers and writes out what Rust does on them: `%` and `/` truncate toward
// zero, `^` is the two's-complement exclusive or.
module Day22 {
  import opened Wrappers
  import opened Bits

  const Modulus: int := 16777216
  /** Number of steps both parts take from each initial secret. */
  const Steps: nat := 2000

  const I64Min: int := -0x8000_0000_0000_0000
  const I64Max: int := 0x7fff_ffff_ffff_ffff

  type I8 = x: int | -128 <= x < 128

  predicate InI64(x: int)
  {
    I64Min <= x <= I64Max
  }

  /** A secret whose first mixing step `secret * 64` does not overflow an
      `i64`; every secret the step produces is far inside this range. */
  predicate Fits(secret: int)
  {
    -0x200_0000_0000_0000 <= secret < 0x200_0000_0000_0000
  }

  // ---------------------------------------------------------------------------
  // Rust's integer operators.

  /** Euclid's division of a natural number. */
  lemma DivMod(y: nat, m: int)
    requires m > 0
    ensures y == (y / m) * m + y % m && 0 <= y % m < m && y / m >= 0
  {
  }

  /** `x / m` on a signed integer: the quotient rounded toward zero. */
  function DivT(x: int, m: int): (r: int)
    requires m > 0
    ensures x >= 0 ==> 0 <= r && r * m <= x < r * m + m
    ensures x < 0 ==> r <= 0 && r * m - m < x <= r * m
  {
    if x >= 0 then
      DivMod(x, m);
      x / m
    else
      DivMod(-x, m);
      -((-x) / m)
  }

  /** `x % m` on a signed integer: the remainder that goes with `DivT`, with
      the sign of `x`. */
  function RemT(x: int, m: int): (r: int)
    requires m > 0
    ensures x == DivT(x, m) * m + r
    ensures x >= 0 ==> 0 <= r < m
    ensures x < 0 ==> -m < r <= 0
  {
    if x >= 0 then
      DivMod(x, m);
      x % m
    else
      DivMod(-x, m);
      -((-x) % m)
  }

  /** `a ^ b` on two's-complement integers: a negative number is the
      complement `-1 - a` of a non-negative one, and complementing one operand
      complements the result. */
  function IntXor(a: int, b: int): (r: int)
    ensures r < 0 <==> (a < 0) != (b < 0)
  {
    if a >= 0 && b >= 0 then Xor(a, b)
    else if a < 0 && b < 0 then Xor(-1 - a, -1 - b)
    else if a < 0 then -1 - Xor(-1 - a, b)
    else -1 - Xor(a, -1 - b)
  }

  /** Xor with the same value twice returns the start, for either sign. */
  lemma IntXorTwice(a: int, b: int)
    ensures IntXor(IntXor(a, b), b) == a
  {
    if a >= 0 && b >= 0 {
      XorTwice(a, b);
    } else if a < 0 && b < 0 {
      XorTwice(-1 - a, -1 - b);
    } else if a < 0 {
      XorTwice(-1 - a, b);
    } else {
      XorTwice(a, -1 - b);
    }
  }

  /** Two numbers that fit in n+1 bits of two's complement have an exclusive
      or that fits as well: `^` never overflows. */
  lemma IntXorRange(a: int, b: int, n: nat)
    requires 0 <= a + Pow2(n) && a < Pow2(n) && 0 <= b + Pow2(n) && b < Pow2(n)
    ensures 0 <= IntXor(a, b) + Pow2(n) && IntXor(a, b) < Pow2(n)
  {
    var x := if a < 0 then -1 - a else a;
    var y := if b < 0 then -1 - b else b;
    XorBits(x, y, n);
  }

  lemma Pow2I64()
    ensures Pow2(63) == -I64Min
  {
    Pow2Half();
    Pow2Add(32, 32);
    assert Pow2(64) == 2 * Pow2(63);
  }

  // ---------------------------------------------------------------------------
  // Secrets.

  /** `mix_and_prune`: the secret modulo 16777216, keeping Rust's sign. */
  function MixAndPrune(secret: int): (r: int)
    ensures secret >= 0 ==> 0 <= r < Modulus
    ensures secret < 0 ==> -Modulus < r <= 0
    ensures (secret - r) % Modulus == 0
  {
    var r := RemT(secret, Modulus);
    assert secret - r == DivT(secret, Modulus) * Modulus;
    r
  }

  /** `generate_next_secret`: mix in the secret times 64, prune, mix in the
      result divided by 32, prune, mix in that times 2048, prune. */
  function NextSecret(secret: int): (r: int)
    requires Fits(secret)
    ensures -Modulus < r < Modulus
    ensures secret >= 0 ==> r >= 0
  {
    var a := MixAndPrune(IntXor(secret, secret * 64));
    var b := MixAndPrune(IntXor(a, DivT(a, 32)));
    MixAndPrune(IntXor(b, b * 2048))
  }

  /** The step on a secret that `Fits` leaves no intermediate value outside
      `i64`, so computing it on unbounded integers is exact. */
  lemma NextSecretNoOverflow(secret: int)
    requires Fits(secret)
    ensures var a := MixAndPrune(IntXor(secret, secret * 64));
      var b := MixAndPrune(IntXor(a, DivT(a, 32)));
      InI64(secret * 64) && InI64(IntXor(secret, secret * 64))
      && InI64(DivT(a, 32)) && InI64(IntXor(a, DivT(a, 32)))
      && InI64(b * 2048) && InI64(IntXor(b, b * 2048))
  {
    Pow2I64();
    IntXorRange(secret, secret * 64, 63);
    var a := MixAndPrune(IntXor(secret, secret * 64));
    IntXorRange(a, DivT(a, 32), 63);
    var b := MixAndPrune(IntXor(a, DivT(a, 32)));
    IntXorRange(b, b * 2048, 63);
  }

  /** The secret after `n` steps from `initial`; zero steps leave it. */
  function NthSecret(initial: int, n: nat): (r: int)
    requires Fits(initial)
    ensures Fits(r)
    ensures n > 0 ==> -Modulus < r < Modulus
    ensures initial >= 0 ==> r >= 0
  {
    if n == 0 then initial else NextSecret(NthSecret(initial, n - 1))
  }

  /** Taking m steps and then n more is taking m + n steps. */
  lemma {:induction false} NthSecretAdd(initial: int, m: nat, n: nat)
    requires Fits(initial)
    ensures NthSecret(initial, m + n) == NthSecret(NthSecret(initial, m), n)
  {
    var start := NthSecret(initial, m);
    if n == 0 {
      assert m + n == m;
    } else {
      NthSecretAdd(initial, m, n - 1);
      var before := NthSecret(initial, m + n - 1);
      assert before == NthSecret(start, n - 1);
      assert NthSecret(initial, m + n) == NextSecret(before);
      assert NthSecret(start, n) == NextSecret(before);
    }
  }

  /** `generate_nth_secret`. */
  method GenerateNthSecret(initial: int, n: nat) returns (secret: int)
    requires Fits(initial)
    ensures secret == NthSecret(initial, n)
  {
    secret := initial;
    for i := 0 to n
      invariant secret == NthSecret(initial, i)
    {
      secret := NextSecret(secret);
    }
  }

  predicate AllFit(secrets: seq<int>)
  {
    forall i :: 0 <= i < |secrets| ==> Fits(secrets[i])
  }

  predicate AllNonNegative(secrets: seq<int>)
  {
    forall i :: 0 <= i < |secrets| ==> secrets[i] >= 0
  }

  /** `solve1`: the sum of every buyer's 2000th secret. */
  function Solve1(secrets: seq<int>): (r: int)
    requires AllFit(secrets)
    ensures -|secrets| * (Modulus - 1) <= r <= |secrets| * (Modulus - 1)
    ensures AllNonNegative(secrets) ==> r >= 0
  {
    if |secrets| == 0 then 0
    else Solve1(secrets[..|secrets| - 1]) + NthSecret(secrets[|secrets| - 1], Steps)
  }

  /** The sum over two lists of buyers is the sum of the two sums. */
  lemma {:induction false} Solve1Append(a: seq<int>, b: seq<int>)
    requires AllFit(a) && AllFit(b)
    ensures AllFit(a + b) && Solve1(a + b) == Solve1(a) + Solve1(b)
    decreases |b|
  {
    assert AllFit(a + b) by {
      forall i | 0 <= i < |a + b|
        ensures Fits((a + b)[i])
      {
        if i >= |a| {
          assert (a + b)[i] == b[i - |a|];
        }
      }
    }
    if |b| > 0 {
      var b' := b[..|b| - 1];
      assert (a + b)[..|a + b| - 1] == a + b';
      assert (a + b)[|a + b| - 1] == b[|b| - 1];
      Solve1Append(a, b');
    } else {
      assert a + b == a;
    }
  }

  // ---------------------------------------------------------------------------
  // Prices.

  /** The price a secret offers: its last decimal digit, `(secret % 10) as
      i8`, which the cast keeps. */
  function Price(secret: int): (r: I8)
    ensures -9 <= r <= 9
    ensures secret >= 0 ==> r >= 0
    ensures secret == DivT(secret, 10) * 10 + r
  {
    RemT(secret, 10)
  }

  /** The prices of the secrets 0 through `count` steps from `initial`. */
  function Prices(initial: int, count: nat): (r: seq<I8>)
    requires Fits(initial)
    ensures |r| == count + 1
    ensures forall k :: 0 <= k <= count ==> r[k] == Price(NthSecret(initial, k))
  {
    if count == 0 then [Price(initial)]
    else Prices(initial, count - 1) + [Price(NthSecret(initial, count))]
  }

  /** `generate_price_sequence`. */
  method GeneratePriceSequence(initial: int, count: nat) returns (prices: seq<I8>)
    requires Fits(initial)
    ensures prices == Prices(initial, count)
  {
    var secret := initial;
    prices := [Price(secret)];
    for i := 0 to count
      invariant secret == NthSecret(initial, i)
      invariant prices == Prices(initial, i)
    {
      secret := NextSecret(secret);
      prices := prices + [Price(secret)];
    }
  }

  /** No two neighbouring prices differ by more than an `i8` can hold, so
      `w[1] - w[0]` does not overflow. */
  predicate SmallSteps(prices: seq<I8>)
  {
    forall i :: 0 <= i < |prices| - 1 ==> -128 <= prices[i + 1] - prices[i] < 128
  }

  /** Prices are single digits, so their differences fit an `i8`. */
  lemma PricesSmallSteps(initial: int, count: nat)
    requires Fits(initial)
    ensures SmallSteps(Prices(initial, count))
  {
  }

  /** `calculate_changes`: the difference of each pair of neighbouring
      prices, one fewer than there are prices. */
  function CalculateChanges(prices: seq<I8>): (r: seq<I8>)
    requires SmallSteps(prices)
    ensures |r| == if |prices| == 0 then 0 else |prices| - 1
    ensures forall i :: 0 <= i < |r| ==> r[i] == prices[i + 1] - prices[i]
  {
    if |prices| < 2 then []
    else
      assert SmallSteps(prices[1..]) by {
        forall i | 0 <= i < |prices| - 2
          ensures -128 <= prices[1..][i + 1] - prices[1..][i] < 128
        {
          assert prices[1..][i + 1] - prices[1..][i] == prices[i + 2] - prices[i + 1];
        }
      }
      [prices[1] - prices[0]] + CalculateChanges(prices[1..])
  }

  function Sum(s: seq<I8>): int
  {
    if |s| == 0 then 0 else Sum(s[..|s| - 1]) + s[|s| - 1]
  }

  lemma {:induction false} SumAppend(a: seq<I8>, b: seq<I8>)
    ensures Sum(a + b) == Sum(a) + Sum(b)
    decreases |b|
  {
    if |b| == 0 {
      assert a + b == a;
    } else {
      assert (a + b)[..|a + b| - 1] == a + b[..|b| - 1];
      SumAppend(a, b[..|b| - 1]);
    }
  }

  /** The changes are the inverse of the prices' differences: the first
      price plus the first k changes is the k-th price. */
  lemma {:induction false} ChangesTelescope(prices: seq<I8>, k: nat)
    requires SmallSteps(prices) && k < |prices|
    ensures prices[k] == prices[0] + Sum(CalculateChanges(prices)[..k])
  {
    if k > 0 {
      var c := CalculateChanges(prices);
      ChangesTelescope(prices, k - 1);
      assert c[..k][..k - 1] == c[..k - 1];
      assert c[k - 1] == prices[k] - prices[k - 1];
    }
  }

  /** The run of changes `sequence` occurs in `changes` starting at `j`. */
  predicate MatchAt(changes: seq<I8>, sequence: seq<I8>, j: nat)
  {
    j + |sequence| <= |changes| && changes[j..j + |sequence|] == sequence
  }

  /** Where the first window of `changes` from `from` on equals `sequence`. */
  function FirstMatch(changes: seq<I8>, sequence: seq<I8>, from: nat): (r: Option<nat>)
    ensures r.Some? ==> from <= r.value && MatchAt(changes, sequence, r.value)
    ensures r.Some? ==> forall j :: from <= j < r.value ==> !MatchAt(changes, sequence, j)
    ensures r.None? ==> forall j :: from <= j ==> !MatchAt(changes, sequence, j)
    decreases |changes| - from
  {
    if from + |sequence| > |changes| then None
    else if changes[from..from + |sequence|] == sequence then Some(from)
    else FirstMatch(changes, sequence, from + 1)
  }

  /** The index `find_sequence_value` reads lies inside `prices`; the
      source's `prices[i + len]` panics otherwise. */
  predicate FindInBounds(changes: seq<I8>, sequence: seq<I8>, prices: seq<I8>)
  {
    var m := FirstMatch(changes, sequence, 0);
    m.Some? ==> m.value + |sequence| < |prices|
  }

  /** `find_sequence_value`: the price just after the first window of the
      changes that equals `sequence`, or nothing when no window does. A
      window of length zero panics in `windows`, so the run is not empty. */
  function FindSequenceValue(changes: seq<I8>, sequence: seq<I8>, prices: seq<I8>): (r: Option<I8>)
    requires |sequence| > 0
    requires FindInBounds(changes, sequence, prices)
    ensures r.None? <==> forall j: nat :: !MatchAt(changes, sequence, j)
    ensures r.Some? ==> exists j: nat ::
      && MatchAt(changes, sequence, j)
      && (forall i :: 0 <= i < j ==> !MatchAt(changes, sequence, i))
      && j + |sequence| < |prices| && r.value == prices[j + |sequence|]
  {
    match FirstMatch(changes, sequence, 0)
    case None => None
    case Some(i) =>
      assert MatchAt(changes, sequence, i);
      Some(prices[i + |sequence|])
  }

  /** On the changes of a list of prices, a matching window ends inside the
      prices, at the price the window's changes add up to. */
  lemma SellPrice(prices: seq<I8>, sequence: seq<I8>, j: nat)
    requires SmallSteps(prices) && |sequence| > 0
    requires MatchAt(CalculateChanges(prices), sequence, j)
    ensures j + |sequence| < |prices|
    ensures prices[j + |sequence|] == prices[j] + Sum(sequence)
  {
    var c := CalculateChanges(prices);
    var e := j + |sequence|;
    assert e <= |c| == |prices| - 1;
    assert c[j..e] == sequence;
    ChangesTelescope(prices, j);
    ChangesTelescope(prices, e);
    WindowSum(c, j, e);
  }

  /** The sum of a window is the difference of two prefix sums. */
  lemma WindowSum(c: seq<I8>, j: nat, e: nat)
    requires j <= e <= |c|
    ensures Sum(c[..e]) == Sum(c[..j]) + Sum(c[j..e])
  {
    assert c[..e] == c[..j] + c[j..e];
    SumAppend(c[..j], c[j..e]);
  }

  /** `find_sequence_value` on a price list and its own changes never reads
      past the prices. */
  lemma FindOnOwnChanges(prices: seq<I8>, sequence: seq<I8>)
    requires SmallSteps(prices) && |sequence| > 0
    ensures FindInBounds(CalculateChanges(prices), sequence, prices)
  {
    var m := FirstMatch(CalculateChanges(prices), sequence, 0);
    if m.Some? {
      SellPrice(prices, sequence, m.value);
    }
  }

  /** The bananas one buyer pays for `sequence`: the price after its first
      occurrence among the changes of the buyer's 2001 prices. */
  function SellValue(secret: int, sequence: seq<I8>): (r: Option<I8>)
    requires Fits(secret) && |sequence| > 0
    ensures r.Some? ==> -9 <= r.value <= 9 && (secret >= 0 ==> r.value >= 0)
  {
    var prices := Prices(secret, Steps);
    PricesSmallSteps(secret, Steps);
    var changes := CalculateChanges(prices);
    FindOnOwnChanges(prices, sequence);
    FindSequenceValue(changes, sequence, prices)
  }

  /** `evaluate_sequence`: the bananas all buyers pay for `sequence`; a buyer
      whose changes never show it pays nothing. */
  function EvaluateSequence(secrets: seq<int>, sequence: seq<I8>): (r: int)
    requires AllFit(secrets) && |sequence| > 0
    ensures -9 * |secrets| <= r <= 9 * |secrets|
    ensures AllNonNegative(secrets) ==> r >= 0
  {
    if |secrets| == 0 then 0
    else
      var last := SellValue(secrets[|secrets| - 1], sequence);
      EvaluateSequence(secrets[..|secrets| - 1], sequence) + (if last.Some? then last.value else 0)
  }

  /** What two groups of buyers pay together is what each pays. */
  lemma {:induction false} EvaluateAppend(a: seq<int>, b: seq<int>, sequence: seq<I8>)
    requires AllFit(a) && AllFit(b) && |sequence| > 0
    ensures AllFit(a + b)
    ensures EvaluateSequence(a + b, sequence) == EvaluateSequence(a, sequence) + EvaluateSequence(b, sequence)
    decreases |b|
  {
    Solve1Append(a, b);
    if |b| > 0 {
      var b' := b[..|b| - 1];
      assert (a + b)[..|a + b| - 1] == a + b';
      assert (a + b)[|a + b| - 1] == b[|b| - 1];
      EvaluateAppend(a, b', sequence);
    } else {
      assert a + b == a;
    }
  }

  // ---------------------------------------------------------------------------
  // Part 2: every run of four changes between -9 and 9.

  predicate Candidate(q: seq<I8>)
  {
    |q| == 4 && forall i :: 0 <= i < 4 ==> -9 <= q[i] <= 9
  }

  lemma CandidateOf(a: int, b: int, c: int, d: int)
    requires -9 <= a <= 9 && -9 <= b <= 9 && -9 <= c <= 9 && -9 <= d <= 9
    ensures Candidate([a, b, c, d])
  {
  }

  lemma FourElements(q: seq<I8>)
    requires |q| == 4
    ensures q == [q[0], q[1], q[2], q[3]]
  {
  }

  /** `q` comes before `[a, b, c, d]` in the order the nested loops try. */
  predicate Before(q: seq<I8>, a: int, b: int, c: int, d: int)
    requires |q| == 4
  {
    q[0] < a || (q[0] == a && (q[1] < b || (q[1] == b && (q[2] < c || (q[2] == c && q[3] < d)))))
  }

  /** No run tried before `[a, b, c, d]` earns more than `best`. */
  ghost predicate Bounded(secrets: seq<int>, best: int, a: int, b: int, c: int, d: int)
    requires AllFit(secrets)
  {
    forall q :: Candidate(q) && Before(q, a, b, c, d) ==> EvaluateSequence(secrets, q) <= best
  }

  /** Trying `[a, b, c, d]` and keeping the larger sum extends the bound by
      one run. */
  lemma BoundedStep(secrets: seq<int>, best: int, a: I8, b: I8, c: I8, d: I8, sum: int)
    requires AllFit(secrets) && Bounded(secrets, best, a, b, c, d)
    requires sum == EvaluateSequence(secrets, [a, b, c, d])
    ensures Bounded(secrets, if sum > best then sum else best, a, b, c, d + 1)
  {
    forall q | Candidate(q) && Before(q, a, b, c, d + 1)
      ensures EvaluateSequence(secrets, q) <= if sum > best then sum else best
    {
      if Before(q, a, b, c, d) {
        assert EvaluateSequence(secrets, q) <= best;
      } else {
        assert q[0] == a && q[1] == b && q[2] == c && q[3] == d;
        FourElements(q);
      }
    }
  }

  /** Past the last `d` the next `c` starts. */
  lemma BoundedCarryD(secrets: seq<int>, best: int, a: int, b: int, c: int)
    requires AllFit(secrets) && Bounded(secrets, best, a, b, c, 10)
    ensures Bounded(secrets, best, a, b, c + 1, -9)
  {
    forall q | Candidate(q) && Before(q, a, b, c + 1, -9)
      ensures EvaluateSequence(secrets, q) <= best
    {
      assert Before(q, a, b, c, 10);
    }
  }

  /** Past the last `c` the next `b` starts. */
  lemma BoundedCarryC(secrets: seq<int>, best: int, a: int, b: int)
    requires AllFit(secrets) && Bounded(secrets, best, a, b, 10, -9)
    ensures Bounded(secrets, best, a, b + 1, -9, -9)
  {
    forall q | Candidate(q) && Before(q, a, b + 1, -9, -9)
      ensures EvaluateSequence(secrets, q) <= best
    {
      assert Before(q, a, b, 10, -9);
    }
  }

  /** Past the last `b` the next `a` starts. */
  lemma BoundedCarryB(secrets: seq<int>, best: int, a: int)
    requires AllFit(secrets) && Bounded(secrets, best, a, 10, -9, -9)
    ensures Bounded(secrets, best, a + 1, -9, -9, -9)
  {
    forall q | Candidate(q) && Before(q, a + 1, -9, -9, -9)
      ensures EvaluateSequence(secrets, q) <= best
    {
      assert Before(q, a, 10, -9, -9);
    }
  }

  /** The bound past the last `a` covers every run. */
  lemma BoundedAll(secrets: seq<int>, best: int, q: seq<I8>)
    requires AllFit(secrets) && Bounded(secrets, best, 10, -9, -9, -9) && Candidate(q)
    ensures EvaluateSequence(secrets, q) <= best
  {
    assert Before(q, 10, -9, -9, -9);
  }

  /** `best` is zero with the initial `[0; 4]`, or what a run `run` earns. */
  predicate Record(secrets: seq<int>, best: int, run: seq<I8>)
    requires AllFit(secrets)
  {
    && best >= 0
    && (best == 0 ==> run == [0, 0, 0, 0])
    && (best > 0 ==> Candidate(run) && EvaluateSequence(secrets, run) == best)
  }

  /** Keeping the larger of the record and a run's sum keeps a record. */
  lemma RecordStep(secrets: seq<int>, best: int, run: seq<I8>, sequence: seq<I8>, sum: int)
    requires AllFit(secrets) && Record(secrets, best, run) && Candidate(sequence)
    requires sum == EvaluateSequence(secrets, sequence)
    ensures if sum > best then Record(secrets, sum, sequence) else Record(secrets, best, run)
  {
  }

  /** `solve2`: the most bananas any run of four changes earns, and a run
      that earns it (the source prints that run). When no run earns anything
      the answer is 0 with the run `[0; 4]`. */
  method Solve2(secrets: seq<int>) returns (bestSum: int, bestSequence: seq<I8>)
    requires AllFit(secrets)
    ensures bestSum >= 0
    ensures forall q :: Candidate(q) ==> EvaluateSequence(secrets, q) <= bestSum
    ensures bestSum == 0 ==> bestSequence == [0, 0, 0, 0]
    ensures bestSum > 0 ==> Candidate(bestSequence) && EvaluateSequence(secrets, bestSequence) == bestSum
  {
    bestSum, bestSequence := 0, [0, 0, 0, 0];
    for a := -9 to 10
      invariant Record(secrets, bestSum, bestSequence)
      invariant Bounded(secrets, bestSum, a, -9, -9, -9)
    {
      for b := -9 to 10
        invariant Record(secrets, bestSum, bestSequence)
        invariant Bounded(secrets, bestSum, a, b, -9, -9)
      {
        bestSum, bestSequence := SearchC(secrets, a, b, bestSum, bestSequence);
      }
      BoundedCarryB(secrets, bestSum, a);
    }
    forall q | Candidate(q)
      ensures EvaluateSequence(secrets, q) <= bestSum
    {
      BoundedAll(secrets, bestSum, q);
    }
  }

  /** The loops over `c` and `d` for fixed `a` and `b`. */
  method SearchC(secrets: seq<int>, a: I8, b: I8, best: int, run: seq<I8>)
    returns (bestSum: int, bestSequence: seq<I8>)
    requires AllFit(secrets) && -9 <= a <= 9 && -9 <= b <= 9
    requires Record(secrets, best, run) && Bounded(secrets, best, a, b, -9, -9)
    ensures Record(secrets, bestSum, bestSequence) && Bounded(secrets, bestSum, a, b + 1, -9, -9)
    ensures bestSum >= best
  {
    bestSum, bestSequence := best, run;
    for c := -9 to 10
      invariant Record(secrets, bestSum, bestSequence) && bestSum >= best
      invariant Bounded(secrets, bestSum, a, b, c, -9)
    {
      bestSum, bestSequence := SearchD(secrets, a, b, c, bestSum, bestSequence);
    }
    BoundedCarryC(secrets, bestSum, a, b);
  }

  /** The innermost loop over `d`. */
  method SearchD(secrets: seq<int>, a: I8, b: I8, c: I8, best: int, run: seq<I8>)
    returns (bestSum: int, bestSequence: seq<I8>)
    requires AllFit(secrets) && -9 <= a <= 9 && -9 <= b <= 9 && -9 <= c <= 9
    requires Record(secrets, best, run) && Bounded(secrets, best, a, b, c, -9)
    ensures Record(secrets, bestSum, bestSequence) && Bounded(secrets, bestSum, a, b, c + 1, -9)
    ensures bestSum >= best
  {
    bestSum, bestSequence := best, run;
    for d := -9 to 10
      invariant Record(secrets, bestSum, bestSequence) && bestSum >= best
      invariant Bounded(secrets, bestSum, a, b, c, d)
    {
      var sequence: seq<I8> := [a, b, c, d];
      var sum := EvaluateSequence(secrets, sequence);
      BoundedStep(secrets, bestSum, a, b, c, d, sum);
      CandidateOf(a, b, c, d);
      RecordStep(secrets, bestSum, bestSequence, sequence, sum);
      if sum > bestSum {
        bestSum, bestSequence := sum, sequence;
      }
    }
    BoundedCarryD(secrets, bestSum, a, b, c);
  }

  /** The changes the source's test expects for the prices of seed 123. */
  lemma ExampleChanges(prices: seq<I8>)
    requires prices == [3, 0, 6, 5, 4, 4, 6, 4, 4, 2]
    ensures SmallSteps(prices)
    ensures CalculateChanges(prices) == [-3, 6, -1, -1, 0, 2, -2, 0, -2]
  {
    var c := CalculateChanges(prices);
    assert prices[1] == 0 && prices[2] == 6 && prices[3] == 5 && prices[4] == 4 && prices[5] == 4;
    assert prices[6] == 6 && prices[7] == 4 && prices[8] == 4 && prices[9] == 2;
    assert c[0] == -3 && c[1] == 6 && c[2] == -1 && c[3] == -1 && c[4] == 0;
    assert c[5] == 2 && c[6] == -2 && c[7] == 0 && c[8] == -2;
  }
}

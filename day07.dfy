// Day 7: calibration equations. Each line is a target and numbers; an
// equation is solvable when some choice of `+` and `*` between the numbers,
// evaluated strictly left to right, hits the target. The search tries every
// bit mask, bit j choosing the j-th operator. Arithmetic is `u64` in a debug
// build, so an overflow panics; a panic is `None` here.
module Day07 {
  import opened Wrappers
  import opened Text

  const U64_BOUND: nat := 0x1_0000_0000_0000_0000

  type U64 = x: nat | x < U64_BOUND

  datatype Equation = Equation(target: U64, numbers: seq<U64>)

  datatype Op = Add | Mul

  datatype ParseError = MissingColon | InvalidTarget | InvalidNumber

  // ---------------------------------------------------------------- parsing

  /** `u64::from_str`. */
  function ParseU64(s: string): (r: Option<U64>)
    ensures r.Some? <==> ParseNat(s, U64_BOUND).Some?
    ensures r.Some? ==> r.value == ParseNat(s, U64_BOUND).value
  {
    match ParseNat(s, U64_BOUND)
    case None => None
    case Some(v) => var u: U64 := v; Some(u)
  }

  /** `Equation::from_str`: the trimmed text before the first ':' is the
      target, the whitespace-separated tokens after it are the numbers. */
  function ParseEquation(s: string): (r: Result<Equation, ParseError>)
    ensures r == Err(MissingColon) <==> ':' !in s
  {
    match SplitOnce(s, ':')
    case None => Err(MissingColon)
    case Some((t, ns)) =>
      match ParseU64(Trim(t))
      case None => Err(InvalidTarget)
      case Some(target) =>
        match ParseEach(SplitWhitespace(ns), ParseU64)
        case None => Err(InvalidNumber)
        case Some(nums) => Ok(Equation(target, nums))
  }

  function Tokens(nums: seq<U64>): (ts: seq<string>)
    ensures |ts| == |nums|
    ensures forall i :: 0 <= i < |nums| ==> ts[i] == NatToString(nums[i])
  {
    seq(|nums|, i requires 0 <= i < |nums| => NatToString(nums[i]))
  }

  /** The puzzle's line format, `190: 10 19`. */
  function Format(eq: Equation): string
  {
    NatToString(eq.target) + ": " + Join(Tokens(eq.numbers), ' ')
  }

  lemma {:induction false} SplitOnceAt(p: string, c: char, t: string)
    requires c !in p
    ensures SplitOnce(p + [c] + t, c) == Some((p, t))
  {
    if p != [] {
      assert p[0] != c;
      assert (p + [c] + t)[1..] == p[1..] + [c] + t;
      SplitOnceAt(p[1..], c, t);
      assert [p[0]] + p[1..] == p;
    }
  }

  /** Writing an equation in the puzzle's format and parsing it back gives
      the same equation. */
  lemma EquationRoundTrip(eq: Equation)
    ensures ParseEquation(Format(eq)) == Ok(eq)
  {
    var head := NatToString(eq.target);
    var rest := " " + Join(Tokens(eq.numbers), ' ');
    assert Format(eq) == head + [':'] + rest;
    assert ':' !in head by { assert forall i :: 0 <= i < |head| ==> IsDigit(head[i]); }
    SplitOnceAt(head, ':', rest);
    DigitsTrimmed(head);
    ParseNatToString(eq.target, U64_BOUND);
    NumbersRoundTrip(eq.numbers);
  }

  lemma NumbersRoundTrip(nums: seq<U64>)
    ensures ParseEach(SplitWhitespace(" " + Join(Tokens(nums), ' ')), ParseU64) == Some(nums)
  {
    var ts := Tokens(nums);
    SplitWhitespaceSkip(Join(ts, ' '));
    forall i | 0 <= i < |ts| ensures ts[i] != [] && NoWhitespace(ts[i]) && ParseU64(ts[i]) == Some(nums[i]) {
      ParseNatToString(nums[i], U64_BOUND);
    }
    SplitWhitespaceJoin(ts);
    var r := ParseEach(ts, ParseU64);
    assert r.Some?;
    assert r.value == nums;
  }

  lemma FormatExample()
    ensures Format(Equation(190, [10, 19])) == "190: 10 19"
  {
    assert NatToString(190) == "190";
    assert NatToString(10) == "10" && NatToString(19) == "19";
    assert Tokens([10, 19]) == ["10", "19"];
    assert Join(["10", "19"], ' ') == "10 19";
  }

  /** The parse of the first unit test: "190: 10 19". */
  lemma ParseExample()
    ensures ParseEquation("190: 10 19") == Ok(Equation(190, [10, 19]))
  {
    EquationRoundTrip(Equation(190, [10, 19]));
    FormatExample();
  }

  // ---------------------------------------------------------------- evaluation

  function Apply(acc: nat, op: Op, x: nat): nat
  {
    match op
    case Add => acc + x
    case Mul => acc * x
  }

  /** The value with the first |ops| operators applied strictly left to
      right, in unbounded integers: operator k combines the value so far with
      number k + 1. */
  function Value(nums: seq<nat>, ops: seq<Op>): nat
    requires |ops| < |nums|
  {
    if ops == [] then nums[0]
    else Apply(Value(nums, ops[..|ops| - 1]), ops[|ops| - 1], nums[|ops|])
  }

  /** No intermediate value leaves `u64`: the value after each operator,
      and the first number, are below 2^64. */
  predicate Fits(nums: seq<nat>, ops: seq<Op>)
    requires |ops| < |nums|
  {
    Value(nums, ops) < U64_BOUND && (ops == [] || Fits(nums, ops[..|ops| - 1]))
  }

  lemma {:induction false} FitsPrefix(nums: seq<nat>, ops: seq<Op>, k: nat)
    requires |ops| < |nums| && k <= |ops| && Fits(nums, ops)
    ensures Fits(nums, ops[..k])
    decreases |ops|
  {
    if k < |ops| {
      FitsPrefix(nums, ops[..|ops| - 1], k);
      assert ops[..|ops| - 1][..k] == ops[..k];
    } else {
      assert ops[..k] == ops;
    }
  }

  /** `Fits` says exactly that every intermediate value is a `u64`. */
  lemma {:induction false} FitsIff(nums: seq<nat>, ops: seq<Op>)
    requires |ops| < |nums|
    ensures Fits(nums, ops) <==> forall k :: 0 <= k <= |ops| ==> Value(nums, ops[..k]) < U64_BOUND
    decreases |ops|
  {
    if ops != [] {
      var init := ops[..|ops| - 1];
      FitsIff(nums, init);
      assert forall k :: 0 <= k <= |init| ==> init[..k] == ops[..k];
      assert ops[..|ops|] == ops;
    } else {
      assert ops[..0] == ops;
    }
  }

  /** `evaluate`: the running result starts at the first number and each
      operator folds in the next one; an overflow panics. */
  method Evaluate(eq: Equation, ops: seq<Op>) returns (r: Option<U64>)
    requires |ops| < |eq.numbers|
    ensures r.Some? <==> Fits(eq.numbers, ops)
    ensures r.Some? ==> r.value == Value(eq.numbers, ops)
  {
    var result: nat := eq.numbers[0];
    assert ops[..0] == [];
    for i := 0 to |ops|
      invariant result == Value(eq.numbers, ops[..i])
      invariant Fits(eq.numbers, ops[..i])
    {
      assert ops[..i + 1][..i] == ops[..i];
      result := Apply(result, ops[i], eq.numbers[i + 1]);
      assert result == Value(eq.numbers, ops[..i + 1]);
      if result >= U64_BOUND {
        if Fits(eq.numbers, ops) {
          FitsPrefix(eq.numbers, ops, i + 1);
        }
        return None;
      }
      assert Fits(eq.numbers, ops[..i + 1]);
    }
    assert ops[..|ops|] == ops;
    return Some(result);
  }

  /** The evaluation examples of the unit tests, and the left-to-right
      order: 10 + 20 * 2 is (10 + 20) * 2. */
  lemma EvaluateExamples()
    ensures Value([10, 19], [Mul]) == 190 && Value([10, 19], [Add]) == 29
    ensures Value([10, 20, 2], [Add, Mul]) == 60
    ensures Fits([10, 19], [Mul]) && Fits([10, 19], [Add])
  {
    assert [Add, Mul][..1] == [Add];
    assert [Mul][..0] == [] && [Add][..0] == [];
    assert [Mul][..1] == [Mul] && [Add][..1] == [Add];
  }

  // ---------------------------------------------------------------- masks

  function Pow2(n: nat): (p: nat)
    ensures p >= 1
  {
    if n == 0 then 1 else 2 * Pow2(n - 1)
  }

  /** Binary digit j of x. */
  predicate Bit(x: nat, j: nat)
  {
    if j == 0 then x % 2 == 1 else Bit(x / 2, j - 1)
  }

  /** The operators a mask selects: bit j set means operator j is `*`. */
  function OpsOf(mask: nat, n: nat): (ops: seq<Op>)
    ensures |ops| == n
  {
    if n == 0 then [] else [if mask % 2 == 0 then Add else Mul] + OpsOf(mask / 2, n - 1)
  }

  /** Operator j is `*` exactly when bit j of the mask is set. */
  lemma {:induction false} OpsOfBits(mask: nat, n: nat, j: nat)
    requires j < n
    ensures OpsOf(mask, n)[j] == Mul <==> Bit(mask, j)
  {
    if j > 0 {
      OpsOfBits(mask / 2, n - 1, j - 1);
    }
  }

  /** The mask that selects the given operators. */
  function MaskOf(ops: seq<Op>): nat
  {
    if ops == [] then 0 else (if ops[0] == Mul then 1 else 0) + 2 * MaskOf(ops[1..])
  }

  /** Every operator sequence is selected by exactly the mask built from it,
      and that mask is in the searched range. */
  lemma {:induction false} MaskOfOps(ops: seq<Op>)
    ensures MaskOf(ops) < Pow2(|ops|)
    ensures OpsOf(MaskOf(ops), |ops|) == ops
  {
    if ops != [] {
      MaskOfOps(ops[1..]);
      var m := MaskOf(ops);
      assert m / 2 == MaskOf(ops[1..]);
      assert ops == [ops[0]] + ops[1..];
    }
  }

  // ---------------------------------------------------------------- the search

  /** The outcome of trying masks i, i + 1, ..., limit - 1 in order: true at
      the first mask that hits the target, a panic at the first overflow
      before that, false when no mask hits. */
  function Search(eq: Equation, n: nat, i: nat, limit: nat): (r: Option<bool>)
    requires n < |eq.numbers|
    ensures r == Some(false) ==> forall m: nat :: i <= m < limit ==> Fits(eq.numbers, OpsOf(m, n)) && Value(eq.numbers, OpsOf(m, n)) != eq.target
    ensures r == Some(true) ==> exists m: nat :: i <= m < limit && Fits(eq.numbers, OpsOf(m, n)) && Value(eq.numbers, OpsOf(m, n)) == eq.target
    ensures r.None? ==> exists m: nat :: i <= m < limit && !Fits(eq.numbers, OpsOf(m, n))
    decreases limit - i
  {
    if i >= limit then Some(false)
    else
      var ops := OpsOf(i, n);
      if !Fits(eq.numbers, ops) then None
      else if Value(eq.numbers, ops) == eq.target then Some(true)
      else Search(eq, n, i + 1, limit)
  }

  /** `is_solvable` searching every one of the 2^(n-1) masks; an equation
      without numbers panics computing `len() - 1`. */
  function Solvable(eq: Equation): (r: Option<bool>)
    ensures r == Some(true) ==>
              exists ops :: |ops| == |eq.numbers| - 1 && Fits(eq.numbers, ops) && Value(eq.numbers, ops) == eq.target
    ensures r.None? && |eq.numbers| > 0 ==> exists ops :: |ops| == |eq.numbers| - 1 && !Fits(eq.numbers, ops)
  {
    if |eq.numbers| == 0 then None
    else
      var n := |eq.numbers| - 1;
      SearchWitness(eq, n);
      Search(eq, n, 0, Pow2(n))
  }

  /** `is_solvable` as written: the mask bound `1 << n` is an `i32`, so a
      shift by 32 or more panics and `1 << 31` is negative, leaving an empty
      range. */
  function SolvableAsWritten(eq: Equation): (r: Option<bool>)
    ensures |eq.numbers| <= 31 ==> r == Solvable(eq)
  {
    if |eq.numbers| == 0 then None
    else if |eq.numbers| - 1 >= 32 then None
    else if |eq.numbers| - 1 == 31 then Some(false)
    else Search(eq, |eq.numbers| - 1, 0, Pow2(|eq.numbers| - 1))
  }

  /** `is_solvable`: try the masks in increasing order and stop at the first
      hit. */
  method IsSolvable(eq: Equation) returns (r: Option<bool>)
    ensures r == Solvable(eq)
  {
    if |eq.numbers| == 0 {
      return None;
    }
    r := ScanMasks(eq, |eq.numbers| - 1, Pow2(|eq.numbers| - 1));
  }

  /** The loop of `is_solvable` over the masks below `limit`. */
  method ScanMasks(eq: Equation, n: nat, limit: nat) returns (r: Option<bool>)
    requires n < |eq.numbers|
    ensures r == Search(eq, n, 0, limit)
  {
    var i := 0;
    while i < limit
      invariant 0 <= i <= limit
      invariant Search(eq, n, i, limit) == Search(eq, n, 0, limit)
      decreases limit - i
    {
      var ops := OpsOf(i, n);
      var v := Evaluate(eq, ops);
      SearchAt(eq, n, i, limit);
      if v.None? {
        return None;
      }
      if v.value == eq.target {
        return Some(true);
      }
      i := i + 1;
    }
    return Some(false);
  }


  /** One step of the search: the mask i decides it, or it goes on at i + 1. */
  lemma SearchAt(eq: Equation, n: nat, i: nat, limit: nat)
    requires n < |eq.numbers| && i < limit
    ensures !Fits(eq.numbers, OpsOf(i, n)) ==> Search(eq, n, i, limit) == None
    ensures Fits(eq.numbers, OpsOf(i, n)) && Value(eq.numbers, OpsOf(i, n)) == eq.target ==> Search(eq, n, i, limit) == Some(true)
    ensures Fits(eq.numbers, OpsOf(i, n)) && Value(eq.numbers, OpsOf(i, n)) != eq.target ==> Search(eq, n, i, limit) == Search(eq, n, i + 1, limit)
  {
  }

  /** A hit or an overflow of the search is one of the operator sequences. */
  lemma SearchWitness(eq: Equation, n: nat)
    requires n < |eq.numbers|
    ensures Search(eq, n, 0, Pow2(n)) == Some(true) ==>
              exists ops :: |ops| == n && Fits(eq.numbers, ops) && Value(eq.numbers, ops) == eq.target
    ensures Search(eq, n, 0, Pow2(n)) == None ==> exists ops :: |ops| == n && !Fits(eq.numbers, ops)
  {
    if Search(eq, n, 0, Pow2(n)) == Some(true) {
      var m :| 0 <= m < Pow2(n) && Fits(eq.numbers, OpsOf(m, n)) && Value(eq.numbers, OpsOf(m, n)) == eq.target;
      assert |OpsOf(m, n)| == n;
    }
    if Search(eq, n, 0, Pow2(n)) == None {
      var m :| 0 <= m < Pow2(n) && !Fits(eq.numbers, OpsOf(m, n));
      assert |OpsOf(m, n)| == n;
    }
  }

  /** An equation the search rejects has no operators reaching its target,
      since every operator sequence is one of the masks tried. */
  lemma SolvableComplete(eq: Equation, ops: seq<Op>)
    requires Solvable(eq) == Some(false) && |ops| == |eq.numbers| - 1
    ensures Fits(eq.numbers, ops) && Value(eq.numbers, ops) != eq.target
  {
    MaskOfOps(ops);
  }

  /** When no choice of operators overflows, the search answers exactly
      whether some choice reaches the target. */
  lemma SolvableIff(eq: Equation)
    requires |eq.numbers| >= 1
    requires forall ops :: |ops| == |eq.numbers| - 1 ==> Fits(eq.numbers, ops)
    ensures Solvable(eq).Some?
    ensures Solvable(eq) == Some(true) <==> exists ops :: |ops| == |eq.numbers| - 1 && Value(eq.numbers, ops) == eq.target
  {
    var n := |eq.numbers| - 1;
    var res := Solvable(eq);
    if res == Some(false) {
      forall ops | |ops| == n ensures Value(eq.numbers, ops) != eq.target {
        SolvableComplete(eq, ops);
      }
    } else if res.Some? {
      assert res.value;
    }
  }

  // ---------------------------------------------------------------- finding: 32 numbers

  lemma {:induction false} OpsOfZero(n: nat)
    ensures OpsOf(0, n) == seq(n, _ => Add)
  {
    if n > 0 {
      OpsOfZero(n - 1);
      assert [Add] + seq(n - 1, _ => Add) == seq(n, _ => Add);
    }
  }

  lemma {:induction false} SumOfOnes(nums: seq<nat>, k: nat)
    requires k < |nums| && forall i :: 0 <= i < |nums| ==> nums[i] == 1
    ensures Value(nums, seq(k, _ => Add)) == k + 1
  {
    if k > 0 {
      var ops := seq(k, _ => Add);
      assert ops[..k - 1] == seq(k - 1, _ => Add);
      SumOfOnes(nums, k - 1);
    }
  }

  /** Thirty-two ones sum to 32 with every operator `+`, but the mask range
      `0..(1 << 31)` of `i32` is empty, so the equation is reported
      unsolvable. */
  lemma ThirtyTwoOnes()
    ensures var eq := Equation(32, seq(32, _ => 1));
      SolvableAsWritten(eq) == Some(false) && Solvable(eq) == Some(true)
  {
    var eq := Equation(32, seq(32, _ => 1));
    var ops := OpsOf(0, 31);
    OpsOfZero(31);
    forall k | 0 <= k <= 31 ensures Value(eq.numbers, ops[..k]) < U64_BOUND {
      assert ops[..k] == seq(k, _ => Add);
      SumOfOnes(eq.numbers, k);
    }
    FitsIff(eq.numbers, ops);
    SumOfOnes(eq.numbers, 31);
    assert |eq.numbers| - 1 == 31;
    assert Search(eq, 31, 0, Pow2(31)) == Some(true);
  }

  // ---------------------------------------------------------------- solve

  /** `filter_map(parse().ok())`: the lines that parse, in order. */
  function ParsedEquations(ls: seq<string>): (eqs: seq<Equation>)
    ensures |eqs| <= |ls|
  {
    if ls == [] then []
    else
      var init := ParsedEquations(ls[..|ls| - 1]);
      match ParseEquation(ls[|ls| - 1])
      case Ok(e) => init + [e]
      case Err(_) => init
  }

  /** A line without a colon is skipped. */
  lemma SkipsColonless(ls: seq<string>, line: string)
    requires ':' !in line
    ensures ParsedEquations(ls + [line]) == ParsedEquations(ls)
  {
    assert (ls + [line])[..|ls|] == ls;
  }

  /** A well-formed line contributes its equation. */
  lemma KeepsEquation(ls: seq<string>, eq: Equation)
    ensures ParsedEquations(ls + [Format(eq)]) == ParsedEquations(ls) + [eq]
  {
    assert (ls + [Format(eq)])[..|ls|] == ls;
    EquationRoundTrip(eq);
  }

  /** The sum of the targets of the equations the search accepts. */
  function SolvedSum(eqs: seq<Equation>): nat
  {
    if eqs == [] then 0
    else SolvedSum(eqs[..|eqs| - 1]) + (if Solvable(eqs[|eqs| - 1]) == Some(true) then eqs[|eqs| - 1].target else 0)
  }

  lemma SolvedSumSnoc(eqs: seq<Equation>, i: nat)
    requires i < |eqs|
    ensures SolvedSum(eqs[..i + 1]) == SolvedSum(eqs[..i]) + (if Solvable(eqs[i]) == Some(true) then eqs[i].target else 0)
  {
    assert eqs[..i + 1][..i] == eqs[..i];
  }

  lemma {:induction false} SolvedSumGrows(eqs: seq<Equation>, i: nat)
    requires i <= |eqs|
    ensures SolvedSum(eqs[..i]) <= SolvedSum(eqs)
    decreases |eqs| - i
  {
    if i < |eqs| {
      SolvedSumGrows(eqs, i + 1);
      assert eqs[..i + 1][..i] == eqs[..i];
    } else {
      assert eqs[..i] == eqs;
    }
  }

  /** `solve`: sums, in `u64`, the targets of the solvable equations among the
      lines that parse. It panics when a search panics or the sum overflows. */
  method Solve(input: string) returns (r: Option<U64>)
    ensures var eqs := ParsedEquations(Lines(input));
      r.None? <==> (exists i :: 0 <= i < |eqs| && Solvable(eqs[i]).None?) || SolvedSum(eqs) >= U64_BOUND
    ensures r.Some? ==> r.value == SolvedSum(ParsedEquations(Lines(input)))
  {
    var eqs := ParsedEquations(Lines(input));
    r := SumSolvable(eqs);
    PanicIff(eqs);
  }

  /** Some search over the equations panics exactly when one of them does. */
  lemma PanicIff(eqs: seq<Equation>)
    ensures !NoPanic(eqs) <==> exists i :: 0 <= i < |eqs| && Solvable(eqs[i]).None?
  {
    NoPanicIff(eqs);
  }

  /** The search over one equation finishes without panicking. */
  predicate Settles(eq: Equation)
  {
    Solvable(eq).Some?
  }

  /** No search over the equations panics. */
  predicate NoPanic(eqs: seq<Equation>)
  {
    eqs == [] || (NoPanic(eqs[..|eqs| - 1]) && Settles(eqs[|eqs| - 1]))
  }

  lemma {:induction false} NoPanicIff(eqs: seq<Equation>)
    ensures NoPanic(eqs) <==> forall i :: 0 <= i < |eqs| ==> Settles(eqs[i])
  {
    if eqs != [] {
      var init := eqs[..|eqs| - 1];
      NoPanicIff(init);
      assert forall i :: 0 <= i < |init| ==> init[i] == eqs[i];
    }
  }

  /** The filter and sum of `solve` over the parsed equations. */
  method SumSolvable(eqs: seq<Equation>) returns (r: Option<U64>)
    ensures r.None? <==> !NoPanic(eqs) || SolvedSum(eqs) >= U64_BOUND
    ensures r.Some? ==> r.value == SolvedSum(eqs)
  {
    var sum: nat := 0;
    assert eqs[..0] == [];
    for i := 0 to |eqs|
      invariant sum == SolvedSum(eqs[..i]) < U64_BOUND
      invariant NoPanic(eqs[..i])
    {
      var s := IsSolvable(eqs[i]);
      if s.None? {
        NoPanicAt(eqs, i);
        return None;
      }
      SumStep(eqs, i);
      if s.value {
        sum := sum + eqs[i].target;
        if sum >= U64_BOUND {
          SolvedSumGrows(eqs, i + 1);
          return None;
        }
      }
    }
    assert eqs[..|eqs|] == eqs;
    return Some(sum);
  }

  /** An equation that settles extends the prefix that settles, and adds its
      target to the sum exactly when it is solvable. */
  lemma SumStep(eqs: seq<Equation>, i: nat)
    requires i < |eqs| && NoPanic(eqs[..i]) && Settles(eqs[i])
    ensures NoPanic(eqs[..i + 1])
    ensures SolvedSum(eqs[..i + 1]) == SolvedSum(eqs[..i]) + (if Solvable(eqs[i]) == Some(true) then eqs[i].target else 0)
  {
    SolvedSumSnoc(eqs, i);
    assert eqs[..i + 1][..i] == eqs[..i];
  }

  lemma NoPanicAt(eqs: seq<Equation>, i: nat)
    requires i < |eqs| && Solvable(eqs[i]).None?
    ensures !NoPanic(eqs)
  {
    NoPanicIff(eqs);
  }

  /** The unit test "30: 10 10": neither 10 + 10 nor 10 * 10 is 30. */
  lemma Unsolvable30()
    ensures Solvable(Equation(30, [10, 10])) == Some(false)
  {
    var eq := Equation(30, [10, 10]);
    assert OpsOf(0, 1) == [Add] && OpsOf(1, 1) == [Mul];
    assert [Add][..0] == [] && [Add][..1] == [Add];
    assert [Mul][..0] == [] && [Mul][..1] == [Mul];
    assert Search(eq, 1, 2, 2) == Some(false);
    assert Search(eq, 1, 1, 2) == Some(false);
  }

  /** The unit test "190: 10 19": the second mask, `*`, hits. */
  lemma Solvable190()
    ensures Solvable(Equation(190, [10, 19])) == Some(true)
  {
    var eq := Equation(190, [10, 19]);
    assert OpsOf(0, 1) == [Add] && OpsOf(1, 1) == [Mul];
    assert [Add][..0] == [] && [Add][..1] == [Add];
    assert [Mul][..0] == [] && [Mul][..1] == [Mul];
    assert Search(eq, 1, 1, 2) == Some(true);
  }
  /** The unit test "20: 10 10": the first mask, `+`, hits. */
  lemma Solvable20()
    ensures Solvable(Equation(20, [10, 10])) == Some(true)
  {
    var eq := Equation(20, [10, 10]);
    assert OpsOf(0, 1) == [Add];
    assert [Add][..0] == [] && [Add][..1] == [Add];
    assert Search(eq, 1, 0, 2) == Some(true);
  }

  /** The unit test "60: 10 20 2": `+ +` gives 32 and `* +` gives 202, then
      `+ *` gives (10 + 20) * 2 = 60. */
  lemma Solvable60()
    ensures Solvable(Equation(60, [10, 20, 2])) == Some(true)
  {
    var eq := Equation(60, [10, 20, 2]);
    assert OpsOf(0, 2) == [Add, Add] && OpsOf(1, 2) == [Mul, Add] && OpsOf(2, 2) == [Add, Mul];
    assert [Add, Add][..1] == [Add] && [Mul, Add][..1] == [Mul] && [Add, Mul][..1] == [Add];
    assert [Add][..0] == [] && [Mul][..0] == [];
    assert Value(eq.numbers, [Add, Add]) == 32;
    assert Value(eq.numbers, [Mul, Add]) == 202;
    assert Value(eq.numbers, [Add, Mul]) == 60;
    assert Search(eq, 2, 2, 4) == Some(true);
    assert Search(eq, 2, 1, 4) == Some(true);
    assert Search(eq, 2, 0, 4) == Some(true);
  }

}

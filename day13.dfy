// Day 13, part one: each claw machine has two buttons that move the claw by a
// fixed offset, and a prize. Pressing A costs 3 tokens and B costs 1. The
// solver takes the one solution Cramer's rule gives for the two linear
// equations and keeps it only if it is a non-negative, exact solution.
module Day13 {
  import opened Wrappers

  datatype Offset = Offset(x: int, y: int)

  /** `GameRound`: the two buttons' offsets and the prize position. */
  datatype Round = Round(buttonA: Offset, buttonB: Offset, prize: Offset)

  const APressCost: int := 3
  const BPressCost: int := 1

  /** Rust's `/` on `i64`: the quotient truncated toward zero. */
  function Quot(n: int, d: int): (q: int)
    requires d != 0
  {
    var q := Abs(n) / Abs(d);
    if (n < 0) == (d < 0) then q else -q
  }

  function Abs(x: int): nat
  {
    if x < 0 then -x else x
  }

  function Det(r: Round): int
  {
    r.buttonA.x * r.buttonB.y - r.buttonA.y * r.buttonB.x
  }

  /** a presses of A and b presses of B put the claw exactly on the prize. */
  predicate Wins(r: Round, a: int, b: int)
  {
    a >= 0 && b >= 0 &&
    a * r.buttonA.x + b * r.buttonB.x == r.prize.x &&
    a * r.buttonA.y + b * r.buttonB.y == r.prize.y
  }

  function Cost(a: int, b: int): int
  {
    a * APressCost + b * BPressCost
  }

  /** `solve_round`: Cramer's rule, kept only when the presses are whole,
      non-negative and land on the prize; an answer is the cost of such
      presses. */
  function SolveRound(r: Round): (res: Option<int>)
    ensures res.Some? ==> exists a, b :: Wins(r, a, b) && res.value == Cost(a, b)
    ensures res.Some? ==> res.value >= 0
  {
    var d := Det(r);
    if d == 0 then None
    else
      var da := r.prize.x * r.buttonB.y - r.prize.y * r.buttonB.x;
      var db := r.buttonA.x * r.prize.y - r.buttonA.y * r.prize.x;
      var a := Quot(da, d);
      var b := Quot(db, d);
      if Wins(r, a, b) then Some(Cost(a, b)) else None
  }

  /** Buttons moving in the same direction give no answer. */
  lemma ZeroDeterminant(r: Round)
    requires Det(r) == 0
    ensures SolveRound(r) == None
  {
  }

  lemma MulBounds(k: int, y: nat)
    requires y > 0
    ensures k >= 1 ==> k * y >= y
    ensures k <= -1 ==> k * y + y <= 0
  {
    if k >= 1 {
      assert k * y == (k - 1) * y + y;
      assert (k - 1) * y >= 0;
    } else if k <= -1 {
      assert k * y == (k + 1) * y - y;
      assert (k + 1) * y <= 0;
    }
  }

  lemma MulDivExact(x: nat, y: nat)
    requires y > 0
    ensures (x * y) / y == x
  {
    var q, m := (x * y) / y, (x * y) % y;
    assert x * y == q * y + m && 0 <= m < y;
    assert (x - q) * y == m;
    MulBounds(x - q, y);
  }

  lemma AbsMul(a: int, d: int)
    ensures Abs(a * d) == Abs(a) * Abs(d)
  {
    if a < 0 && d < 0 {
      assert a * d == (-a) * (-d);
    } else if a < 0 {
      assert a * d == -((-a) * d);
    } else if d < 0 {
      assert a * d == -(a * (-d));
    }
  }

  /** Dividing an exact multiple gives the factor back. */
  lemma QuotExact(a: int, d: int)
    requires d != 0
    ensures Quot(a * d, d) == a
  {
    AbsMul(a, d);
    MulDivExact(Abs(a), Abs(d));
    if a != 0 {
      assert (a * d < 0) == ((a < 0) != (d < 0)) by {
        if a > 0 && d > 0 {
          assert a * d > 0;
        } else if a > 0 {
          assert a * d < 0;
        } else if d > 0 {
          assert a * d < 0;
        } else {
          assert a * d > 0;
        }
      }
    }
  }

  /** Any winning presses satisfy a * D == Da and b * D == Db. */
  lemma CramerIdentities(r: Round, a: int, b: int)
    requires Wins(r, a, b)
    ensures r.prize.x * r.buttonB.y - r.prize.y * r.buttonB.x == a * Det(r)
    ensures r.buttonA.x * r.prize.y - r.buttonA.y * r.prize.x == b * Det(r)
  {
    var ax, ay, bx, bY := r.buttonA.x, r.buttonA.y, r.buttonB.x, r.buttonB.y;
    calc {
      r.prize.x * bY - r.prize.y * bx;
      (a * ax + b * bx) * bY - (a * ay + b * bY) * bx;
      a * (ax * bY - ay * bx);
    }
    calc {
      ax * r.prize.y - ay * r.prize.x;
      ax * (a * ay + b * bY) - ay * (a * ax + b * bx);
      b * (ax * bY - ay * bx);
    }
  }

  /** With independent buttons, any winning presses are the ones found: the
      round has an answer exactly when the prize can be won, and it is the
      cost of the winning presses. */
  lemma SolveRoundComplete(r: Round, a: int, b: int)
    requires Det(r) != 0 && Wins(r, a, b)
    ensures SolveRound(r) == Some(Cost(a, b))
  {
    CramerIdentities(r, a, b);
    QuotExact(a, Det(r));
    QuotExact(b, Det(r));
  }

  /** With independent buttons at most one choice of presses wins. */
  lemma WinsUnique(r: Round, a: int, b: int, a': int, b': int)
    requires Det(r) != 0 && Wins(r, a, b) && Wins(r, a', b')
    ensures a == a' && b == b'
  {
    CramerIdentities(r, a, b);
    CramerIdentities(r, a', b');
    QuotExact(a, Det(r));
    QuotExact(a', Det(r));
    QuotExact(b, Det(r));
    QuotExact(b', Det(r));
  }

  /** The first example machine: 80 presses of A and 40 of B, 280 tokens. */
  lemma FirstExample()
    ensures SolveRound(Round(Offset(94, 34), Offset(22, 67), Offset(8400, 5400))) == Some(280)
  {
    SolveRoundComplete(Round(Offset(94, 34), Offset(22, 67), Offset(8400, 5400)), 80, 40);
  }

  /** The impossible example: both buttons move diagonally. */
  lemma ImpossibleExample()
    ensures SolveRound(Round(Offset(20, 20), Offset(50, 50), Offset(10, 10))) == None
  {
    ZeroDeterminant(Round(Offset(20, 20), Offset(50, 50), Offset(10, 10)));
  }

  /** `solve`: `filter_map(solve_round).sum()` over the rounds; every
      answer is a cost of non-negative presses, so the total is never
      negative. */
  function Solve(rounds: seq<Round>): (r: int)
    ensures r >= 0
  {
    if rounds == [] then 0
    else Solve(rounds[..|rounds| - 1]) + SolveRound(rounds[|rounds| - 1]).GetOr(0)
  }

  /** The total splits over consecutive groups of rounds. */
  lemma {:induction false} SolveAppend(xs: seq<Round>, ys: seq<Round>)
    ensures Solve(xs + ys) == Solve(xs) + Solve(ys)
  {
    if ys == [] {
      assert xs + ys == xs;
    } else {
      var init := ys[..|ys| - 1];
      assert (xs + ys)[..|xs + ys| - 1] == xs + init;
      SolveAppend(xs, init);
    }
  }
}

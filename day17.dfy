// Day 17 part one: the three-register machine's fetch/execute loop, as a
// step function, a fuel-bounded run, and the imperative loop of `solve`
// proved equal to that run.
module Day17 {
  import opened Wrappers
  import opened Text
  import opened Bits
  import opened Day17Types

  /** The state between two instructions: registers, instruction pointer and
      the values printed so far. */
  datatype Machine = Machine(regs: Registers, ip: nat, output: seq<Word>)

  /** Why an instruction cannot complete: the source panics or has no
      defined behaviour. */
  datatype Fault =
    | BadOpcode       // the byte at ip names no opcode
    | MissingOperand  // the opcode is the last byte, so reading ip + 1 panics
    | BadCombo        // a combo operand byte of 8 or more names no operand
    | ReservedCombo   // combo operand 7 panics
    | ShiftOverflow   // `a >> v` with v of 64 or more overflows

  /** `ComboOperand::from(operand).value(&registers)`. */
  function Combo(operand: Byte, regs: Registers): (r: Result<Word, Fault>)
    ensures r.Ok? <==> operand < 7
    ensures r == Err(BadCombo) <==> operand >= 8
    ensures r.Ok? ==> ComboValue(DecodeCombo(operand).value, regs) == Some(r.value)
  {
    match DecodeCombo(operand)
    case None => Err(BadCombo)
    case Some(op) =>
      match ComboValue(op, regs)
      case None => Err(ReservedCombo)
      case Some(v) => Ok(v)
  }

  /** `registers.a.0 >> combo`, shared by adv, bdv and cdv: the division of
      A by two to the power of the combo operand. */
  function Divide(operand: Byte, regs: Registers): (r: Result<Word, Fault>)
    ensures r.Ok? <==> Combo(operand, regs).Ok? && Combo(operand, regs).value < 64
    ensures r.Ok? ==> r.value <= regs.a
    ensures Combo(operand, regs).Ok? && Combo(operand, regs).value >= 64 ==> r == Err(ShiftOverflow)
  {
    match Combo(operand, regs)
    case Err(f) => Err(f)
    case Ok(k) => if k < 64 then Ok(Shr(regs.a, k)) else Err(ShiftOverflow)
  }

  /** One pass of the loop body at `m.ip`: a completed instruction keeps what
      was printed and prints at most one more value. */
  function Step(prog: seq<Byte>, m: Machine): (r: Result<Machine, Fault>)
    requires m.ip < |prog|
    ensures r.Ok? ==> m.output <= r.value.output && |r.value.output| <= |m.output| + 1
  {
    match DecodeOpcode(prog[m.ip])
    case None => Err(BadOpcode)
    case Some(op) =>
      if m.ip + 1 >= |prog| then Err(MissingOperand)
      else
        var operand := prog[m.ip + 1];
        var regs := m.regs;
        var next := m.ip + 2;
        match op
        case Adv =>
          (match Divide(operand, regs)
           case Err(f) => Err(f)
           case Ok(v) => Ok(m.(regs := regs.(a := v), ip := next)))
        case Bxl => Ok(m.(regs := regs.(b := XorWord(regs.b, operand)), ip := next))
        case Bst =>
          (match Combo(operand, regs)
           case Err(f) => Err(f)
           case Ok(v) => Ok(m.(regs := regs.(b := v % 8), ip := next)))
        case Jnz => Ok(m.(ip := if regs.a == 0 then next else operand))
        case Bxc => Ok(m.(regs := regs.(b := XorWord(regs.b, regs.c)), ip := next))
        case Out =>
          (match Combo(operand, regs)
           case Err(f) => Err(f)
           case Ok(v) => Ok(m.(ip := next, output := m.output + [v % 8])))
        case Bdv =>
          (match Divide(operand, regs)
           case Err(f) => Err(f)
           case Ok(v) => Ok(m.(regs := regs.(b := v), ip := next)))
        case Cdv =>
          (match Divide(operand, regs)
           case Err(f) => Err(f)
           case Ok(v) => Ok(m.(regs := regs.(c := v), ip := next)))
  }

  /** Every instruction but jnz moves on by two bytes. */
  lemma StepAdvances(prog: seq<Byte>, m: Machine)
    requires m.ip < |prog| && prog[m.ip] != 3 && Step(prog, m).Ok?
    ensures Step(prog, m).value.ip == m.ip + 2
  {
  }

  /** jnz goes on by two when A is zero and jumps to its operand otherwise;
      nothing else changes. */
  lemma StepJump(prog: seq<Byte>, m: Machine)
    requires m.ip + 1 < |prog| && prog[m.ip] == 3
    ensures m.regs.a == 0 ==> Step(prog, m) == Ok(m.(ip := m.ip + 2))
    ensures m.regs.a != 0 ==> Step(prog, m) == Ok(m.(ip := prog[m.ip + 1]))
  {
  }

  /** adv, bdv and cdv divide A by two to the power of the combo operand,
      rounding down, and store the quotient in A, B and C; the other two
      registers keep their values. */
  lemma StepDivisions(prog: seq<Byte>, m: Machine)
    requires m.ip + 1 < |prog| && prog[m.ip] in {0, 6, 7} && Step(prog, m).Ok?
    ensures var k := Combo(prog[m.ip + 1], m.regs);
      var r := Step(prog, m).value.regs;
      var q := if prog[m.ip] == 0 then r.a else if prog[m.ip] == 6 then r.b else r.c;
      && k.Ok? && k.value < 64
      && q * Pow2(k.value) <= m.regs.a < (q + 1) * Pow2(k.value)
      && (prog[m.ip] == 0 ==> r.b == m.regs.b && r.c == m.regs.c)
      && (prog[m.ip] == 6 ==> r.a == m.regs.a && r.c == m.regs.c)
      && (prog[m.ip] == 7 ==> r.a == m.regs.a && r.b == m.regs.b)
  {
    var k := Combo(prog[m.ip + 1], m.regs).value;
    ShrDivides(m.regs.a, k);
  }

  /** Only out prints, and it prints one value below 8; every other step
      leaves the output alone. */
  lemma StepOutput(prog: seq<Byte>, m: Machine)
    requires m.ip < |prog| && Step(prog, m).Ok?
    ensures var out := Step(prog, m).value.output;
      if prog[m.ip] == 5 then |out| == |m.output| + 1 && out[..|m.output|] == m.output && out[|m.output|] < 8
      else out == m.output
  {
  }

  /** The faults: an undecodable opcode, a trailing opcode, and otherwise
      only the instructions that read a combo operand. */
  lemma StepFaults(prog: seq<Byte>, m: Machine)
    requires m.ip < |prog|
    ensures Step(prog, m) == Err(BadOpcode) <==> prog[m.ip] >= 8
    ensures Step(prog, m) == Err(MissingOperand) <==> prog[m.ip] < 8 && m.ip + 1 == |prog|
    ensures Step(prog, m).Err? && prog[m.ip] in {1, 3, 4} ==> m.ip + 1 == |prog|
    ensures Step(prog, m).Err? && prog[m.ip] < 8 && m.ip + 1 < |prog| && prog[m.ip + 1] < 7 ==> prog[m.ip] in {0, 6, 7}
  {
  }

  // ---------------------------------------------------------------------------
  // Running the loop.

  /** How a bounded run ends. `OutOfFuel` stands for a loop the step bound
      cut short; the source has no bound. */
  datatype Outcome = Halted(m: Machine) | Faulted(fault: Fault, m: Machine) | OutOfFuel(m: Machine)

  /** The `while instruction_pointer < program.len()` loop, at most `fuel`
      passes. */
  function Run(prog: seq<Byte>, m: Machine, fuel: nat): (r: Outcome)
    ensures m.output <= r.m.output && |r.m.output| <= |m.output| + fuel
    decreases fuel
  {
    if m.ip >= |prog| then Halted(m)
    else if fuel == 0 then OutOfFuel(m)
    else
      match Step(prog, m)
      case Err(f) => Faulted(f, m)
      case Ok(m') => Run(prog, m', fuel - 1)
  }

  /** The machine halts exactly when ip is past the program. */
  lemma {:induction false} RunHalts(prog: seq<Byte>, m: Machine, fuel: nat)
    ensures m.ip >= |prog| ==> Run(prog, m, fuel) == Halted(m)
    ensures Run(prog, m, fuel).Halted? ==> Run(prog, m, fuel).m.ip >= |prog|
    ensures !Run(prog, m, fuel).Halted? ==> Run(prog, m, fuel).m.ip < |prog|
    decreases fuel
  {
    if m.ip < |prog| && fuel > 0 && Step(prog, m).Ok? {
      RunHalts(prog, Step(prog, m).value, fuel - 1);
    }
  }

  predicate Digits(out: seq<Word>)
  {
    forall i :: 0 <= i < |out| ==> out[i] < 8
  }

  /** A run only appends to the output, and every value it appends is
      below 8. */
  lemma {:induction false} RunOutput(prog: seq<Byte>, m: Machine, fuel: nat)
    requires Digits(m.output)
    ensures var out := Run(prog, m, fuel).m.output;
      |m.output| <= |out| && out[..|m.output|] == m.output && Digits(out)
    decreases fuel
  {
    if m.ip < |prog| && fuel > 0 && Step(prog, m).Ok? {
      StepDigits(prog, m);
      RunOutput(prog, Step(prog, m).value, fuel - 1);
    }
  }

  /** One instruction keeps the output made of values below 8. */
  lemma StepDigits(prog: seq<Byte>, m: Machine)
    requires m.ip < |prog| && Step(prog, m).Ok? && Digits(m.output)
    ensures Digits(Step(prog, m).value.output)
  {
    StepOutput(prog, m);
    var out := Step(prog, m).value.output;
    forall i | 0 <= i < |out|
      ensures out[i] < 8
    {
      if i < |m.output| {
        assert out[i] == out[..|m.output|][i];
      }
    }
  }

  /** More fuel does not change a run that ended without running out. */
  lemma {:induction false} RunMoreFuel(prog: seq<Byte>, m: Machine, fuel: nat, more: nat)
    requires !Run(prog, m, fuel).OutOfFuel?
    requires fuel <= more
    ensures Run(prog, m, more) == Run(prog, m, fuel)
    decreases fuel
  {
    if m.ip < |prog| && Step(prog, m).Ok? {
      RunMoreFuel(prog, Step(prog, m).value, fuel - 1, more - 1);
    }
  }

  /** `solve`'s fetch/execute loop over its local registers, instruction
      pointer and output vector, stopped after `fuel` passes. */
  method Execute(prog: seq<Byte>, regs: Registers, fuel: nat) returns (outcome: Outcome)
    ensures outcome == Run(prog, Machine(regs, 0, []), fuel)
  {
    var a, b, c := regs.a, regs.b, regs.c;
    var ip: nat := 0;
    var output: seq<Word> := [];
    var steps: nat := 0;
    while ip < |prog|
      invariant steps <= fuel
      invariant Run(prog, Machine(Registers(a, b, c), ip, output), fuel - steps)
             == Run(prog, Machine(regs, 0, []), fuel)
      decreases fuel - steps
    {
      var here := Machine(Registers(a, b, c), ip, output);
      if steps == fuel {
        return OutOfFuel(here);
      }
      if prog[ip] >= 8 {
        return Faulted(BadOpcode, here);
      }
      if ip + 1 >= |prog| {
        return Faulted(MissingOperand, here);
      }
      var opcode := DecodeOpcode(prog[ip]).value;
      var operand := prog[ip + 1];
      match opcode {
        case Adv =>
          var k := Combo(operand, Registers(a, b, c));
          if k.Err? {
            return Faulted(k.error, here);
          }
          if k.value >= 64 {
            return Faulted(ShiftOverflow, here);
          }
          a := Shr(a, k.value);
          ip := ip + 2;
        case Bxl =>
          b := XorWord(b, operand);
          ip := ip + 2;
        case Bst =>
          var k := Combo(operand, Registers(a, b, c));
          if k.Err? {
            return Faulted(k.error, here);
          }
          b := k.value % 8;
          ip := ip + 2;
        case Jnz =>
          if a == 0 {
            ip := ip + 2;
          } else {
            ip := operand;
          }
        case Bxc =>
          b := XorWord(b, c);
          ip := ip + 2;
        case Out =>
          var k := Combo(operand, Registers(a, b, c));
          if k.Err? {
            return Faulted(k.error, here);
          }
          output := output + [k.value % 8];
          ip := ip + 2;
        case Bdv =>
          var k := Combo(operand, Registers(a, b, c));
          if k.Err? {
            return Faulted(k.error, here);
          }
          if k.value >= 64 {
            return Faulted(ShiftOverflow, here);
          }
          b := Shr(a, k.value);
          ip := ip + 2;
        case Cdv =>
          var k := Combo(operand, Registers(a, b, c));
          if k.Err? {
            return Faulted(k.error, here);
          }
          if k.value >= 64 {
            return Faulted(ShiftOverflow, here);
          }
          c := Shr(a, k.value);
          ip := ip + 2;
      }
      assert Step(prog, here) == Ok(Machine(Registers(a, b, c), ip, output));
      steps := steps + 1;
    }
    outcome := Halted(Machine(Registers(a, b, c), ip, output));
  }

  /** The text `solve` returns: the printed values joined with ','; `None`
      when the run faults or the step bound cuts it short. */
  function Answer(prog: seq<Byte>, regs: Registers, fuel: nat): (r: Option<string>)
    ensures r.Some? <==> Run(prog, Machine(regs, 0, []), fuel).Halted?
    ensures r.Some? && fuel == 0 ==> prog == []
  {
    match Run(prog, Machine(regs, 0, []), fuel)
    case Halted(m) => Some(Commas(m.output))
    case _ => None
  }

  /** `solve` itself: run the loop, then join the output. */
  method Solve(prog: seq<Byte>, regs: Registers, fuel: nat) returns (text: Option<string>)
    ensures text == Answer(prog, regs, fuel)
    ensures text.Some? ==> Run(prog, Machine(regs, 0, []), fuel).Halted?
  {
    var outcome := Execute(prog, regs, fuel);
    if outcome.Halted? {
      text := Some(Commas(outcome.m.output));
    } else {
      text := None;
    }
  }
}

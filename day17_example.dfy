// The puzzle's example for day 17: the program adv 1, out 4, jnz 0, which
// halves A and prints its last three bits until A is zero.
module Day17Example {
  import opened Wrappers
  import opened Bits
  import opened Day17Types
  import opened Day17

  const ExampleProgram: seq<Byte> := [0, 1, 5, 4, 3, 0]

  /** The output once the example program has run from A = a with `out`
      printed so far: A is halved, the new A's last three bits are printed,
      and the loop repeats until A is zero. */
  function Printed(a: nat, out: seq<Word>): (r: seq<Word>)
    ensures |r| > |out| && r[..|out|] == out
    decreases a
  {
    var h := a / 2;
    var out' := out + [h % 8];
    if h == 0 then out' else Printed(h, out')
  }

  /** Loop passes the example program makes from A = a. */
  function Rounds(a: nat): (r: nat)
    ensures r >= 1
    decreases a
  {
    var h := a / 2;
    1 + (if h == 0 then 0 else Rounds(h))
  }

  /** One pass of the example loop: three steps halve A and print it. */
  lemma ExamplePass(a: Word, b: Word, c: Word, out: seq<Word>)
    ensures var h := a / 2;
      var m := Machine(Registers(a, b, c), 0, out);
      var m3 := Machine(Registers(h, b, c), if h == 0 then 6 else 0, out + [h % 8]);
      && Step(ExampleProgram, m) == Ok(m.(regs := m.regs.(a := h), ip := 2))
      && Step(ExampleProgram, m.(regs := m.regs.(a := h), ip := 2))
         == Ok(Machine(Registers(h, b, c), 4, out + [h % 8]))
      && Step(ExampleProgram, Machine(Registers(h, b, c), 4, out + [h % 8])) == Ok(m3)
  {
    assert Shr(a, 1) == a / 2;
  }

  lemma ExampleRunPass(a: Word, b: Word, c: Word, out: seq<Word>, fuel: nat)
    requires fuel >= 3
    ensures var h := a / 2;
      Run(ExampleProgram, Machine(Registers(a, b, c), 0, out), fuel)
      == Run(ExampleProgram, Machine(Registers(h, b, c), if h == 0 then 6 else 0, out + [h % 8]), fuel - 3)
  {
    var h := a / 2;
    var m := Machine(Registers(a, b, c), 0, out);
    var m1 := m.(regs := m.regs.(a := h), ip := 2);
    var m2 := Machine(Registers(h, b, c), 4, out + [h % 8]);
    ExamplePass(a, b, c, out);
    assert Run(ExampleProgram, m, fuel) == Run(ExampleProgram, m1, fuel - 1);
    assert Run(ExampleProgram, m1, fuel - 1) == Run(ExampleProgram, m2, fuel - 2);
  }

  /** From any A the example program halts with A zero after `Rounds(a)`
      passes, having printed `Printed(a, out)`. */
  lemma {:induction false} ExampleRun(a: Word, b: Word, c: Word, out: seq<Word>, fuel: nat)
    requires fuel >= 3 * Rounds(a)
    ensures Run(ExampleProgram, Machine(Registers(a, b, c), 0, out), fuel)
         == Halted(Machine(Registers(0, b, c), 6, Printed(a, out)))
    decreases a, 1
  {
    var h := a / 2;
    ExampleRunPass(a, b, c, out, fuel);
    if h == 0 {
      RunHalts(ExampleProgram, Machine(Registers(h, b, c), 6, out + [h % 8]), fuel - 3);
    } else {
      ExampleRunOn(a, b, c, out, fuel - 3);
    }
  }

  /** The passes after the first, when the first leaves A non-zero. */
  lemma {:induction false} ExampleRunOn(a: Word, b: Word, c: Word, out: seq<Word>, fuel: nat)
    requires a / 2 != 0 && fuel >= 3 * Rounds(a / 2)
    ensures Run(ExampleProgram, Machine(Registers(a / 2, b, c), 0, out + [a / 2 % 8]), fuel)
         == Halted(Machine(Registers(0, b, c), 6, Printed(a, out)))
    decreases a, 0
  {
    ExampleRun(a / 2, b, c, out + [a / 2 % 8], fuel);
  }

  /** The example's printed values from A = 729. */
  lemma PrintedExample()
    ensures Printed(729, []) == [4, 6, 3, 5, 6, 3, 5, 2, 1, 0]
  {
  }

  /** The example loop makes ten passes from A = 729. */
  lemma RoundsExample()
    ensures Rounds(729) == 10
  {
    assert Rounds(11) == 4;
    assert Rounds(91) == 7;
  }

  lemma CommasExample(printed: seq<nat>)
    requires printed == [4, 6, 3, 5, 6, 3, 5, 2, 1, 0]
    ensures Commas(printed) == "4,6,3,5,6,3,5,2,1,0"
  {
    var front, back := printed[..5], printed[5..];
    CommasFront(front);
    CommasBack(back);
    assert front + back == printed;
    CommasAppend(front, back);
  }

  lemma CommasFront(front: seq<nat>)
    requires front == [4, 6, 3, 5, 6]
    ensures Commas(front) == "4,6,3,5,6"
  {
    assert Commas([4, 6, 3, 5, 6]) == "4,6,3,5,6";
  }

  lemma CommasBack(back: seq<nat>)
    requires back == [3, 5, 2, 1, 0]
    ensures Commas(back) == "3,5,2,1,0"
  {
    assert Commas([3, 5, 2, 1, 0]) == "3,5,2,1,0";
  }

  /** The example program's text reads back as the program. */
  lemma ProgramTextExample(text: string, p: seq<Byte>)
    requires text == "0,1,5,4,3,0" && p == ExampleProgram
    ensures ParseProgram(text) == Some(p)
  {
    ProgramCommas(p);
    ParseFormat(p);
  }

  /** The example program prints as its text. */
  lemma ProgramCommas(q: seq<nat>)
    requires q == ExampleProgram
    ensures Commas(q) == "0,1,5,4,3,0"
  {
    var front, back := q[..3], q[3..];
    ProgramTextFront(front);
    ProgramTextBack(back);
    assert front + back == q;
    CommasAppend(front, back);
  }

  lemma ProgramTextFront(front: seq<nat>)
    requires front == [0, 1, 5]
    ensures Commas(front) == "0,1,5"
  {
    assert Commas([0, 1, 5]) == "0,1,5";
  }

  lemma ProgramTextBack(back: seq<nat>)
    requires back == [4, 3, 0]
    ensures Commas(back) == "4,3,0"
  {
    assert Commas([4, 3, 0]) == "4,3,0";
  }

  /** A = 729 prints "4,6,3,5,6,3,5,2,1,0" in ten passes. */
  lemma SolveExample(fuel: nat)
    requires fuel >= 30
    ensures Answer(ExampleProgram, Registers(729, 0, 0), fuel) == Some("4,6,3,5,6,3,5,2,1,0")
  {
    PrintedExample();
    RoundsExample();
    ExampleRun(729, 0, 0, [], fuel);
    CommasExample(Printed(729, []));
  }
}

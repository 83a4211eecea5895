// The types of the day 17 three-register machine: `u64` registers, `u8`
// program bytes, the opcode and combo-operand decodings, and the program's
// comma-separated text form.
module Day17Types {
  import opened Wrappers
  import opened Text
  import opened Bits

  const WordBound: nat := 0x1_0000_0000_0000_0000

  /** A `u64`. */
  type Word = x: nat | x < 0x1_0000_0000_0000_0000

  /** A `u8`. */
  type Byte = x: nat | x < 256

  datatype Registers = Registers(a: Word, b: Word, c: Word)

  /** The eight instructions, numbered as in `#[repr(u8)]`. */
  datatype Opcode = Adv | Bxl | Bst | Jnz | Bxc | Out | Bdv | Cdv

  function OpcodeCode(op: Opcode): (v: Byte)
    ensures v < 8
  {
    match op
    case Adv => 0
    case Bxl => 1
    case Bst => 2
    case Jnz => 3
    case Bxc => 4
    case Out => 5
    case Bdv => 6
    case Cdv => 7
  }

  /** `Opcode::from(u8)`. The source transmutes the byte, which has no
      meaning for a byte of 8 or more; that is `None` here. */
  function DecodeOpcode(v: Byte): (r: Option<Opcode>)
    ensures r.Some? <==> v < 8
    ensures r.Some? ==> OpcodeCode(r.value) == v
  {
    if v == 0 then Some(Adv)
    else if v == 1 then Some(Bxl)
    else if v == 2 then Some(Bst)
    else if v == 3 then Some(Jnz)
    else if v == 4 then Some(Bxc)
    else if v == 5 then Some(Out)
    else if v == 6 then Some(Bdv)
    else if v == 7 then Some(Cdv)
    else None
  }

  /** Decoding the code of an opcode gives the opcode back. */
  lemma DecodeOpcodeCode(op: Opcode)
    ensures DecodeOpcode(OpcodeCode(op)) == Some(op)
  {
  }

  datatype ComboOperand = Zero | One | Two | Three | RegA | RegB | RegC | Reserved

  function ComboCode(op: ComboOperand): (v: Byte)
    ensures v < 8
  {
    match op
    case Zero => 0
    case One => 1
    case Two => 2
    case Three => 3
    case RegA => 4
    case RegB => 5
    case RegC => 6
    case Reserved => 7
  }

  /** `ComboOperand::from(u8)`, again `None` for a byte that names no
      variant. */
  function DecodeCombo(v: Byte): (r: Option<ComboOperand>)
    ensures r.Some? <==> v < 8
    ensures r.Some? ==> ComboCode(r.value) == v
  {
    if v == 0 then Some(Zero)
    else if v == 1 then Some(One)
    else if v == 2 then Some(Two)
    else if v == 3 then Some(Three)
    else if v == 4 then Some(RegA)
    else if v == 5 then Some(RegB)
    else if v == 6 then Some(RegC)
    else if v == 7 then Some(Reserved)
    else None
  }

  lemma DecodeComboCode(op: ComboOperand)
    ensures DecodeCombo(ComboCode(op)) == Some(op)
  {
  }

  /** `ComboOperand::value`: operands 0 to 3 are themselves, 4 to 6 read a
      register, and 7 is reserved (`None`, the panic). */
  function ComboValue(op: ComboOperand, regs: Registers): (r: Option<Word>)
    ensures r.None? <==> op == Reserved
    ensures ComboCode(op) < 4 ==> r == Some(ComboCode(op))
    ensures op == RegA ==> r == Some(regs.a)
    ensures op == RegB ==> r == Some(regs.b)
    ensures op == RegC ==> r == Some(regs.c)
  {
    match op
    case Zero => Some(0)
    case One => Some(1)
    case Two => Some(2)
    case Three => Some(3)
    case RegA => Some(regs.a)
    case RegB => Some(regs.b)
    case RegC => Some(regs.c)
    case Reserved => None
  }

  // ---------------------------------------------------------------------------
  // Word arithmetic.

  /** `x >> k` on a `u64`, one bit at a time; a shift of 64 or more
      overflows (a panic in a debug build), so `k` is below 64. */
  function Shr(x: Word, k: nat): (r: Word)
    requires k < 64
    ensures r <= x
  {
    if k == 0 then x else Shr(x / 2, k - 1)
  }

  /** The shift is division by two to the power `k`, rounded down. */
  lemma {:induction false} ShrDivides(x: Word, k: nat)
    requires k < 64
    ensures Shr(x, k) * Pow2(k) <= x < (Shr(x, k) + 1) * Pow2(k)
  {
    if k > 0 {
      ShrDivides(x / 2, k - 1);
      var q, p := Shr(x / 2, k - 1), Pow2(k - 1);
      assert Shr(x, k) == q && Pow2(k) == 2 * p;
      Twice(q, p);
      Twice(q + 1, p);
    }
  }

  lemma Pow2Word()
    ensures Pow2(64) == WordBound
  {
    Pow2Half();
    Pow2Add(32, 32);
  }

  /** `x ^ y` on `u64`s: never leaves the type. */
  function XorWord(x: Word, y: Word): (r: Word)
    ensures r == Xor(x, y)
  {
    Pow2Word();
    XorBits(x, y, 64);
    Xor(x, y)
  }

  // ---------------------------------------------------------------------------
  // The program's comma format.

  /** `u8::from_str`. */
  function ParseByte(s: string): (r: Option<Byte>)
    ensures r.Some? <==> ParseNat(s, 256).Some?
    ensures r.Some? ==> r.value == ParseNat(s, 256).value
  {
    match ParseNat(s, 256)
    case None => None
    case Some(v) => Some(v)
  }

  function Decimals(vs: seq<nat>): (r: seq<string>)
    ensures |r| == |vs|
    ensures forall i :: 0 <= i < |vs| ==> r[i] == NatToString(vs[i])
  {
    if vs == [] then [] else [NatToString(vs[0])] + Decimals(vs[1..])
  }

  /** Numbers in decimal joined with ',' (the `to_string` and `join(",")`
      idiom). */
  function Commas(vs: seq<nat>): string
  {
    Join(Decimals(vs), ',')
  }

  /** Two non-empty lists of numbers print as their texts around a ','. */
  lemma CommasAppend(a: seq<nat>, b: seq<nat>)
    requires a != [] && b != []
    ensures Commas(a + b) == Commas(a) + [','] + Commas(b)
  {
    assert Decimals(a + b) == Decimals(a) + Decimals(b);
    JoinAppend(Decimals(a), Decimals(b), ',');
  }

  lemma DigitsNoSeparator(s: string)
    requires AllDigits(s)
    ensures ',' !in s
  {
  }

  /** No decimal text holds the separator. */
  lemma DecimalsNoSeparator(vs: seq<nat>)
    ensures forall i :: 0 <= i < |Decimals(vs)| ==> ',' !in Decimals(vs)[i]
  {
    forall i | 0 <= i < |Decimals(vs)| ensures ',' !in Decimals(vs)[i] {
      DigitsNoSeparator(Decimals(vs)[i]);
    }
  }

  /** `CommaSeparated::write`: a non-empty program prints as one decimal
      piece per byte, in order, between ','s. */
  function FormatProgram(p: seq<Byte>): (s: string)
    ensures |p| > 0 ==> |Split(s, ',')| == |p| && forall i :: 0 <= i < |p| ==> Split(s, ',')[i] == NatToString(p[i])
  {
    DecimalsNoSeparator(p);
    if |p| > 0 then SplitJoin(Decimals(p), ','); Commas(p) else Commas(p)
  }

  /** `CommaSeparated::parse`: split on ',' and parse every piece as a `u8`;
      the first piece that does not parse is the error. */
  function ParseProgram(s: string): (r: Option<seq<Byte>>)
    ensures r.Some? ==> |r.value| == |Split(s, ',')|
    ensures r.Some? ==> forall i :: 0 <= i < |r.value| ==> ParseByte(Split(s, ',')[i]) == Some(r.value[i])
    ensures r.None? ==> exists i :: 0 <= i < |Split(s, ',')| && ParseByte(Split(s, ',')[i]).None?
  {
    var pieces := Split(s, ',');
    var r := ParseEach<Byte>(pieces, ParseByte);
    assert r.Some? ==> |r.value| == |pieces| && forall i :: 0 <= i < |pieces| ==> ParseByte(pieces[i]) == Some(r.value[i]);
    assert r.None? ==> exists i :: 0 <= i < |pieces| && !ParseByte(pieces[i]).Some?;
    r
  }

  /** Formatting a program and parsing it back gives the program. */
  lemma ParseFormat(p: seq<Byte>)
    requires |p| > 0
    ensures ParseProgram(FormatProgram(p)) == Some(p)
  {
    var pieces := Split(FormatProgram(p), ',');
    forall i | 0 <= i < |pieces| ensures ParseByte(pieces[i]) == Some(p[i]) {
      ParseNatToString(p[i], 256);
    }
    var r := ParseProgram(FormatProgram(p));
    assert r.Some?;
    assert r.value == p;
  }

  /** The empty program prints as the empty string, which is one empty piece
      and does not parse. */
  lemma EmptyProgramDoesNotParse()
    ensures FormatProgram([]) == ""
    ensures ParseProgram("") == None
  {
    assert Split("", ',') == [""];
  }
}

// Day 19 input: the comma-separated towel patterns, a blank line, then one
// design per line.
module Day19Parser {
  import opened Wrappers
  import opened Text

  datatype ParseError = NoBlankLine

  function TrimAll(ls: seq<string>): (r: seq<string>)
    ensures |r| == |ls| && forall i :: 0 <= i < |ls| ==> r[i] == Trim(ls[i])
  {
    seq(|ls|, i requires 0 <= i < |ls| => Trim(ls[i]))
  }

  /** `parse_input`: the towels are the pieces of the first part split on
      ',' and trimmed, the designs the trimmed lines of the rest; without a
      blank line the input is an error. */
  function ParseInput(input: string): (r: Result<(seq<string>, seq<string>), ParseError>)
    ensures r.Err? <==> !HasBlank(input)
    ensures r.Ok? ==> var (head, tail) := SplitAtBlank(input).value;
      r.value == (TrimAll(Split(head, ',')), TrimAll(Lines(tail)))
  {
    match SplitAtBlank(input)
    case None => Err(NoBlankLine)
    case Some((head, tail)) => Ok((TrimAll(Split(head, ',')), TrimAll(Lines(tail))))
  }

  /** The puzzle's layout: towels joined by ",", a blank line, and one
      design per line. */
  function FormatInput(towels: seq<string>, designs: seq<string>): string
  {
    Join(towels, ',') + "\n\n" + Unlines(designs)
  }

  predicate Plain(s: string, sep: char)
  {
    sep !in s && '\n' !in s && Trim(s) == s
  }

  lemma {:induction false} JoinNoNewline(parts: seq<string>)
    requires forall i :: 0 <= i < |parts| ==> '\n' !in parts[i]
    ensures '\n' !in Join(parts, ',')
  {
    if |parts| > 1 {
      JoinNoNewline(parts[1..]);
    }
  }

  /** Formatting towels and designs and parsing the text gives them back,
      when no towel holds a ',' or a newline, no design a newline, and none
      has surrounding whitespace. */
  lemma ParseFormat(towels: seq<string>, designs: seq<string>)
    requires |towels| >= 1
    requires forall i :: 0 <= i < |towels| ==> Plain(towels[i], ',')
    requires forall i :: 0 <= i < |designs| ==> Plain(designs[i], '\n')
    ensures ParseInput(FormatInput(towels, designs)) == Ok((towels, designs))
  {
    var head := Join(towels, ',');
    JoinNoNewline(towels);
    assert FormatInput(towels, designs) == head + "\n\n" + Unlines(designs);
    SplitAtBlankAfter(head, Unlines(designs));
    SplitJoin(towels, ',');
    LinesUnlines(designs);
    assert TrimAll(towels) == towels;
    assert TrimAll(designs) == designs;
  }

}

// The string toolkit the solvers rely on: Rust's `str::lines`, `trim`,
// `split_whitespace`, `split`/`split_once` (also at a blank line), decimal
// parsing of unsigned and signed integers and decimal printing, each with the
// law that pins it down.
module Text {
  import opened Wrappers

  // ---------------------------------------------------------------- whitespace

  /** Space, tab, newline and carriage return. Rust's `char::is_whitespace`
      also accepts vertical tab, form feed and other Unicode spaces. */
  predicate IsWhitespace(c: char)
  {
    c == ' ' || c == '\t' || c == '\n' || c == '\r'
  }

  predicate NoWhitespace(s: string)
  {
    forall i :: 0 <= i < |s| ==> !IsWhitespace(s[i])
  }

  predicate AllWhitespace(s: string)
  {
    forall i :: 0 <= i < |s| ==> IsWhitespace(s[i])
  }

  /** `trim_start`: the suffix left after dropping leading whitespace. */
  function TrimStart(s: string): (r: string)
    ensures |r| <= |s| && r == s[|s| - |r|..]
    ensures r == [] || !IsWhitespace(r[0])
  {
    if s != [] && IsWhitespace(s[0]) then TrimStart(s[1..]) else s
  }

  /** What `trim_start` drops is whitespace. */
  lemma {:induction false} TrimStartDrops(s: string)
    ensures AllWhitespace(s[..|s| - |TrimStart(s)|])
  {
    if s != [] && IsWhitespace(s[0]) {
      TrimStartDrops(s[1..]);
      var k := |s| - |TrimStart(s)|;
      assert forall i :: 1 <= i < k ==> s[..k][i] == s[1..][..k - 1][i - 1];
    }
  }

  /** `trim_end`: the prefix left after dropping trailing whitespace. */
  function TrimEnd(s: string): (r: string)
    ensures |r| <= |s| && r == s[..|r|]
    ensures r == [] || !IsWhitespace(r[|r| - 1])
  {
    if s != [] && IsWhitespace(s[|s| - 1]) then TrimEnd(s[..|s| - 1]) else s
  }

  /** What `trim_end` drops is whitespace. */
  lemma {:induction false} TrimEndDrops(s: string)
    ensures AllWhitespace(s[|TrimEnd(s)|..])
  {
    if s != [] && IsWhitespace(s[|s| - 1]) {
      TrimEndDrops(s[..|s| - 1]);
      var k := |TrimEnd(s)|;
      assert forall i :: k <= i < |s| - 1 ==> s[i] == s[..|s| - 1][i];
    }
  }

  /** `trim`: both ends. */
  function Trim(s: string): (r: string)
    ensures |r| <= |s|
  {
    TrimEnd(TrimStart(s))
  }

  /** Trimming keeps a contiguous slice, and everything it drops is
      whitespace. */
  lemma TrimSlice(s: string)
    ensures var r := Trim(s);
      exists i :: 0 <= i <= |s| - |r| && r == s[i..i + |r|]
        && AllWhitespace(s[..i]) && AllWhitespace(s[i + |r|..])
  {
    var t := TrimStart(s);
    var r := TrimEnd(t);
    var i := |s| - |t|;
    TrimStartDrops(s);
    TrimEndDrops(t);
    assert t == s[i..];
    assert r == s[i..i + |r|];
    assert s[i + |r|..] == t[|r|..];
    assert AllWhitespace(s[..i]) && AllWhitespace(s[i + |r|..]);
  }

  /** Neither end of a trimmed string is whitespace. */
  lemma TrimEnds(s: string)
    ensures Trim(s) == [] || (!IsWhitespace(Trim(s)[0]) && !IsWhitespace(Trim(s)[|Trim(s)| - 1]))
  {
    var t := TrimStart(s);
    var r := TrimEnd(t);
    if r != [] {
      assert r[0] == t[0];
    }
  }

  /** A trimmed string is empty exactly when the input is all whitespace. */
  lemma TrimEmptyIff(s: string)
    ensures Trim(s) == [] <==> AllWhitespace(s)
  {
    var t := TrimStart(s);
    TrimStartDrops(s);
    assert s == s[..|s| - |t|] + t;
    if t != [] {
      TrimEndDrops(t);
      assert !IsWhitespace(s[|s| - |t|]);
    }
  }

  lemma TrimIdempotent(s: string)
    ensures Trim(Trim(s)) == Trim(s)
  {
    var r := Trim(s);
    TrimEnds(s);
    assert TrimStart(r) == r;
    if r != [] {
      assert TrimEnd(r) == r;
    }
  }

  // ---------------------------------------------------------------- split

  /** `str::split(c)`: always one more piece than there are separators. */
  function Split(s: string, c: char): (r: seq<string>)
    ensures |r| >= 1
    ensures forall i :: 0 <= i < |r| ==> c !in r[i]
  {
    if s == [] then [[]]
    else
      var rest := Split(s[1..], c);
      if s[0] == c then [[]] + rest else [[s[0]] + rest[0]] + rest[1..]
  }

  /** Pieces joined back with the separator (`join`). */
  function Join(parts: seq<string>, c: char): string
  {
    if parts == [] then []
    else if |parts| == 1 then parts[0]
    else parts[0] + [c] + Join(parts[1..], c)
  }

  /** Joining two non-empty lists of pieces puts one separator between
      their joins. */
  lemma {:induction false} JoinAppend(x: seq<string>, y: seq<string>, c: char)
    requires x != [] && y != []
    ensures Join(x + y, c) == Join(x, c) + [c] + Join(y, c)
  {
    assert (x + y)[0] == x[0];
    if |x| > 1 {
      JoinAppend(x[1..], y, c);
      assert (x + y)[1..] == x[1..] + y;
    } else {
      assert (x + y)[1..] == y;
    }
  }

  lemma {:induction false} JoinSplit(s: string, c: char)
    ensures Join(Split(s, c), c) == s
  {
    if s != [] {
      JoinSplit(s[1..], c);
      var rest := Split(s[1..], c);
      if s[0] == c {
        assert Split(s, c) == [[]] + rest;
      } else {
        var r := Split(s, c);
        assert r == [[s[0]] + rest[0]] + rest[1..];
        if |rest| == 1 {
          assert Join(r, c) == [s[0]] + rest[0];
        } else {
          assert r[1..] == rest[1..];
          assert Join(r, c) == [s[0]] + rest[0] + [c] + Join(rest[1..], c);
        }
      }
    }
  }

  lemma {:induction false} SplitNoSeparator(p: string, c: char)
    requires c !in p
    ensures Split(p, c) == [p]
  {
    if p != [] {
      SplitNoSeparator(p[1..], c);
      assert p == [p[0]] + p[1..];
    }
  }

  lemma {:induction false} SplitAfterPiece(p: string, c: char, t: string)
    requires c !in p
    ensures Split(p + [c] + t, c) == [p] + Split(t, c)
  {
    var s := p + [c] + t;
    if p == [] {
      assert s[1..] == t;
    } else {
      assert s[0] == p[0] && s[1..] == p[1..] + [c] + t;
      SplitAfterPiece(p[1..], c, t);
      assert p == [p[0]] + p[1..];
    }
  }

  lemma {:induction false} SplitJoin(parts: seq<string>, c: char)
    requires |parts| >= 1
    requires forall i :: 0 <= i < |parts| ==> c !in parts[i]
    ensures Split(Join(parts, c), c) == parts
  {
    if |parts| == 1 {
      SplitNoSeparator(parts[0], c);
    } else {
      SplitJoin(parts[1..], c);
      SplitAfterPiece(parts[0], c, Join(parts[1..], c));
      assert parts == [parts[0]] + parts[1..];
    }
  }

  /** `split_once(c)`: the text before and after the first separator. */
  function SplitOnce(s: string, c: char): (r: Option<(string, string)>)
    ensures r.None? <==> c !in s
    ensures r.Some? ==> s == r.value.0 + [c] + r.value.1 && c !in r.value.0
  {
    if s == [] then None
    else if s[0] == c then Some(([], s[1..]))
    else match SplitOnce(s[1..], c)
      case None => None
      case Some(p) => Some(([s[0]] + p.0, p.1))
  }

  /** `s` holds two newlines in a row. */
  predicate HasBlank(s: string)
  {
    exists i :: 0 <= i < |s| - 1 && s[i] == '\n' && s[i + 1] == '\n'
  }

  /** `split_once("\n\n")`: the text before and after the first blank
      line. */
  function SplitAtBlank(s: string): (r: Option<(string, string)>)
    ensures r.None? <==> !HasBlank(s)
    ensures r.Some? ==> s == r.value.0 + "\n\n" + r.value.1 && !HasBlank(r.value.0 + "\n")
  {
    if |s| < 2 then None
    else if s[0] == '\n' && s[1] == '\n' then
      assert s == [] + "\n\n" + s[2..];
      Some(([], s[2..]))
    else match SplitAtBlank(s[1..])
      case None =>
        NoBlankCons(s);
        None
      case Some(p) =>
        BlankCons(s, p.0, p.1);
        Some(([s[0]] + p.0, p.1))
  }

  /** A blank line in `s` that is not at its start is one in `s[1..]`. */
  lemma NoBlankCons(s: string)
    requires |s| >= 2 && !(s[0] == '\n' && s[1] == '\n') && !HasBlank(s[1..])
    ensures !HasBlank(s)
  {
    forall i | 0 < i < |s| - 1
      ensures !(s[i] == '\n' && s[i + 1] == '\n')
    {
      assert s[1..][i - 1] == s[i] && s[1..][i] == s[i + 1];
    }
  }

  /** The first blank line of `s[1..]` is the first of `s`. */
  lemma BlankCons(s: string, head: string, tail: string)
    requires |s| >= 2 && !(s[0] == '\n' && s[1] == '\n')
    requires s[1..] == head + "\n\n" + tail && !HasBlank(head + "\n")
    ensures s == [s[0]] + head + "\n\n" + tail && HasBlank(s)
    ensures !HasBlank([s[0]] + head + "\n")
  {
    assert s == [s[0]] + s[1..];
    var a := [s[0]] + head;
    assert s[|head| + 1] == '\n' && s[|head| + 2] == '\n';
    forall i | 0 < i < |a + "\n"| - 1
      ensures !((a + "\n")[i] == '\n' && (a + "\n")[i + 1] == '\n')
    {
      assert (a + "\n")[i] == (head + "\n")[i - 1] && (a + "\n")[i + 1] == (head + "\n")[i];
    }
  }

  /** Text without a newline followed by a blank line splits right there. */
  lemma {:induction false} SplitAtBlankAfter(head: string, tail: string)
    requires '\n' !in head
    ensures SplitAtBlank(head + "\n\n" + tail) == Some((head, tail))
  {
    if head != [] {
      SplitAtBlankAfter(head[1..], tail);
      assert (head + "\n\n" + tail)[1..] == head[1..] + "\n\n" + tail;
      assert (head + "\n\n" + tail)[0] == head[0] != '\n';
      assert [head[0]] + head[1..] == head;
    } else {
      assert head + "\n\n" + tail == "\n\n" + tail;
    }
  }

  // ---------------------------------------------------------------- lines

  /** `str::lines`: pieces between newlines; a final newline does not open an
      extra empty line, and the empty string has no lines. */
  function Lines(s: string): (r: seq<string>)
    ensures forall i :: 0 <= i < |r| ==> '\n' !in r[i]
  {
    var parts := Split(s, '\n');
    if parts[|parts| - 1] == [] then parts[..|parts| - 1] else parts
  }

  /** Lines, each followed by a newline. */
  function Unlines(ls: seq<string>): string
  {
    if ls == [] then [] else ls[0] + "\n" + Unlines(ls[1..])
  }

  lemma {:induction false} UnlinesAsJoin(ls: seq<string>)
    ensures Unlines(ls) == Join(ls + [[]], '\n')
  {
    if ls != [] {
      UnlinesAsJoin(ls[1..]);
      assert (ls + [[]])[1..] == ls[1..] + [[]];
    }
  }

  /** Writing lines out and reading them back gives the same lines. */
  lemma LinesUnlines(ls: seq<string>)
    requires forall i :: 0 <= i < |ls| ==> '\n' !in ls[i]
    ensures Lines(Unlines(ls)) == ls
  {
    UnlinesAsJoin(ls);
    SplitJoin(ls + [[]], '\n');
    assert (ls + [[]])[..|ls|] == ls;
  }

  /** Text without a newline is one line. */
  lemma LinesOfLine(s: string)
    requires s != [] && '\n' !in s
    ensures Lines(s) == [s]
  {
    SplitJoin([s], '\n');
  }

  // ---------------------------------------------------------------- split_whitespace

  /** Longest prefix without whitespace. */
  function Word(s: string): (r: string)
    ensures |r| <= |s| && r == s[..|r|] && NoWhitespace(r)
    ensures |r| == |s| || IsWhitespace(s[|r|])
  {
    if s == [] || IsWhitespace(s[0]) then [] else [s[0]] + Word(s[1..])
  }

  /** `split_whitespace`: the maximal runs of non-whitespace characters. */
  function SplitWhitespace(s: string): (r: seq<string>)
    ensures forall i :: 0 <= i < |r| ==> r[i] != [] && NoWhitespace(r[i])
    decreases |s|
  {
    if s == [] then []
    else if IsWhitespace(s[0]) then SplitWhitespace(s[1..])
    else
      var w := Word(s);
      assert w[0] == s[0];
      [w] + SplitWhitespace(s[|w|..])
  }

  /** The characters of `s` that are not whitespace, in order. */
  function Dense(s: string): string
  {
    if s == [] then []
    else if IsWhitespace(s[0]) then Dense(s[1..])
    else [s[0]] + Dense(s[1..])
  }

  function Concat(ws: seq<string>): string
  {
    if ws == [] then [] else ws[0] + Concat(ws[1..])
  }

  lemma ConcatCons(w: string, ws: seq<string>)
    ensures Concat([w] + ws) == w + Concat(ws)
  {
    assert ([w] + ws)[1..] == ws;
  }

  lemma {:induction false} DenseAppend(a: string, b: string)
    ensures Dense(a + b) == Dense(a) + Dense(b)
  {
    if a == [] {
      assert a + b == b;
    } else {
      DenseAppend(a[1..], b);
      assert (a + b)[0] == a[0];
      assert (a + b)[1..] == a[1..] + b;
      if !IsWhitespace(a[0]) {
        calc {
          Dense(a + b);
          [a[0]] + Dense(a[1..] + b);
          [a[0]] + (Dense(a[1..]) + Dense(b));
          ([a[0]] + Dense(a[1..])) + Dense(b);
        }
      }
    }
  }

  lemma {:induction false} DenseOfWhitespace(a: string)
    requires AllWhitespace(a)
    ensures Dense(a) == []
  {
    if a != [] {
      DenseOfWhitespace(a[1..]);
    }
  }

  lemma {:induction false} DenseOfWord(a: string)
    requires NoWhitespace(a)
    ensures Dense(a) == a
  {
    if a != [] {
      DenseOfWord(a[1..]);
    }
  }

  lemma {:induction false} DenseWord(t: string)
    ensures Dense(t) == Word(t) + Dense(t[|Word(t)|..])
  {
    if t != [] && !IsWhitespace(t[0]) {
      DenseWord(t[1..]);
      assert t[|Word(t)|..] == t[1..][|Word(t[1..])|..];
    }
  }

  /** The tokens hold exactly the non-whitespace characters of the input, in order. */
  lemma {:induction false} SplitWhitespaceDense(s: string)
    ensures Concat(SplitWhitespace(s)) == Dense(s)
    decreases |s|
  {
    if s != [] {
      if IsWhitespace(s[0]) {
        SplitWhitespaceDense(s[1..]);
      } else {
        var w := Word(s);
        assert w[0] == s[0];
        var rest := s[|w|..];
        SplitWhitespaceDense(rest);
        ConcatCons(w, SplitWhitespace(rest));
        DenseWord(s);
      }
    }
  }

  /** A token followed by whitespace (or nothing) is split off first. */
  lemma SplitWhitespaceCons(w: string, rest: string)
    requires w != [] && NoWhitespace(w)
    requires rest == [] || IsWhitespace(rest[0])
    ensures SplitWhitespace(w + rest) == [w] + SplitWhitespace(rest)
  {
    var s := w + rest;
    assert s[0] == w[0];
    WordOfPrefix(w, rest);
    assert s[|w|..] == rest;
  }

  /** Tokens joined by single spaces split back into the same tokens. */
  lemma {:induction false} SplitWhitespaceJoin(ws: seq<string>)
    requires forall i :: 0 <= i < |ws| ==> ws[i] != [] && NoWhitespace(ws[i])
    ensures SplitWhitespace(Join(ws, ' ')) == ws
  {
    if ws == [] {
    } else if |ws| == 1 {
      SplitWhitespaceCons(ws[0], []);
      assert ws[0] + [] == ws[0];
      assert ws == [ws[0]];
    } else {
      SplitWhitespaceJoin(ws[1..]);
      SplitWhitespaceJoinStep(ws);
    }
  }

  lemma SplitWhitespaceJoinStep(ws: seq<string>)
    requires |ws| > 1 && ws[0] != [] && NoWhitespace(ws[0])
    requires SplitWhitespace(Join(ws[1..], ' ')) == ws[1..]
    ensures SplitWhitespace(Join(ws, ' ')) == ws
  {
    var w, rest := ws[0], Join(ws[1..], ' ');
    assert Join(ws, ' ') == w + ([' '] + rest);
    SplitWhitespaceSpaced(w, rest);
    assert ws == [w] + ws[1..];
  }

  lemma SplitWhitespaceSpaced(w: string, rest: string)
    requires w != [] && NoWhitespace(w)
    ensures SplitWhitespace(w + ([' '] + rest)) == [w] + SplitWhitespace(rest)
  {
    SplitWhitespaceCons(w, [' '] + rest);
    SplitWhitespaceSkip(rest);
  }

  lemma SplitWhitespaceSkip(rest: string)
    ensures SplitWhitespace([' '] + rest) == SplitWhitespace(rest)
  {
    assert ([' '] + rest)[1..] == rest;
  }

  lemma {:induction false} WordOfPrefix(w: string, rest: string)
    requires NoWhitespace(w)
    requires rest == [] || IsWhitespace(rest[0])
    ensures Word(w + rest) == w
  {
    if w != [] {
      assert (w + rest)[1..] == w[1..] + rest;
      WordOfPrefix(w[1..], rest);
    }
  }

  // ---------------------------------------------------------------- decimal numbers

  predicate IsDigit(c: char)
  {
    '0' <= c <= '9'
  }

  predicate AllDigits(s: string)
  {
    forall i :: 0 <= i < |s| ==> IsDigit(s[i])
  }

  function DigitValue(c: char): (d: nat)
    requires IsDigit(c)
    ensures d < 10
  {
    c as int - '0' as int
  }

  function DigitChar(d: nat): (c: char)
    requires d < 10
    ensures IsDigit(c) && DigitValue(c) == d
  {
    ('0' as int + d) as char
  }

  /** The value of a digit string, most significant digit first. */
  function DigitsValue(s: string): nat
    requires AllDigits(s)
  {
    if s == [] then 0 else DigitsValue(s[..|s| - 1]) * 10 + DigitValue(s[|s| - 1])
  }

  /** Decimal representation without leading zeros (`to_string`). */
  function NatToString(n: nat): (s: string)
    ensures s != [] && AllDigits(s)
    ensures |s| > 1 ==> s[0] != '0'
  {
    if n < 10 then [DigitChar(n)] else NatToString(n / 10) + [DigitChar(n % 10)]
  }

  lemma {:induction false} DigitsValueOfToString(n: nat)
    ensures DigitsValue(NatToString(n)) == n
  {
    if n >= 10 {
      DigitsValueOfToString(n / 10);
      var s := NatToString(n);
      assert s[..|s| - 1] == NatToString(n / 10);
    }
  }

  /** Unsigned parse (`u32`, `u64`, ... `from_str`): an optional '+', at least
      one digit, nothing else, and a value below the type's bound. */
  function ParseNat(s: string, bound: nat): (r: Option<nat>)
    ensures r.Some? ==> r.value < bound
  {
    var d := if |s| > 0 && s[0] == '+' then s[1..] else s;
    if d != [] && AllDigits(d) && DigitsValue(d) < bound then Some(DigitsValue(d)) else None
  }

  /** Signed parse (`i32`, `i64` `from_str`): an optional sign, at least one
      digit, and a value inside [lo, hi]. */
  function ParseInt(s: string, lo: int, hi: int): (r: Option<int>)
    ensures r.Some? ==> lo <= r.value <= hi
  {
    var neg := |s| > 0 && s[0] == '-';
    var d := if |s| > 0 && (s[0] == '+' || s[0] == '-') then s[1..] else s;
    if d != [] && AllDigits(d) then
      var v := if neg then -(DigitsValue(d) as int) else DigitsValue(d) as int;
      if lo <= v <= hi then Some(v) else None
    else None
  }

  function IntToString(n: int): (s: string)
  {
    if n < 0 then "-" + NatToString(-n) else NatToString(n)
  }

  /** Printing then parsing a number gives it back. */
  lemma ParseNatToString(n: nat, bound: nat)
    requires n < bound
    ensures ParseNat(NatToString(n), bound) == Some(n)
  {
    DigitsValueOfToString(n);
    var s := NatToString(n);
    assert s[0] != '+' by { assert IsDigit(s[0]); }
  }

  lemma ParseIntToString(n: int, lo: int, hi: int)
    requires lo <= n <= hi
    ensures ParseInt(IntToString(n), lo, hi) == Some(n)
  {
    var s := IntToString(n);
    if n < 0 {
      var m: nat := -n;
      var digits := NatToString(m);
      assert s == "-" + digits;
      assert s[0] == '-' && s[1..] == digits;
      DigitsValueOfToString(m);
      assert ParseInt(s, lo, hi) == Some(-(DigitsValue(digits) as int));
    } else {
      assert s == NatToString(n);
      assert IsDigit(s[0]);
      DigitsValueOfToString(n);
      assert ParseInt(s, lo, hi) == Some(DigitsValue(s) as int);
    }
  }

  /** Parsing rejects a string holding any character that is neither a digit
      nor a leading sign. */
  lemma ParseNatNeedsDigits(s: string, bound: nat, i: nat)
    requires 0 < i < |s| && !IsDigit(s[i])
    ensures ParseNat(s, bound) == None
  {
    if s[0] == '+' {
      assert s[1..][i - 1] == s[i];
    }
  }

  /** A string that starts and ends with visible characters is already trimmed. */
  lemma VisibleTrimmed(s: string)
    requires s != [] && !IsWhitespace(s[0]) && !IsWhitespace(s[|s| - 1])
    ensures Trim(s) == s
  {
  }

  /** Joining non-empty pieces starts with the first piece's first character
      and ends with the last piece's last character. */
  lemma {:induction false} JoinEnds(parts: seq<string>, c: char)
    requires |parts| >= 1 && forall i :: 0 <= i < |parts| ==> parts[i] != []
    ensures Join(parts, c) != [] && Join(parts, c)[0] == parts[0][0]
    ensures Join(parts, c)[|Join(parts, c)| - 1] == parts[|parts| - 1][|parts[|parts| - 1]| - 1]
  {
    if |parts| > 1 {
      JoinEnds(parts[1..], c);
    }
  }

  /** A digit string has no surrounding whitespace to trim. */
  lemma DigitsTrimmed(s: string)
    requires s != [] && AllDigits(s)
    ensures Trim(s) == s
  {
    assert !IsWhitespace(s[0]) && !IsWhitespace(s[|s| - 1]);
  }

  /** Parses every piece with `f`; fails when any piece fails (the
      collect-into-`Result` and throw-on-bad-item idioms). */
  function ParseEach<T>(pieces: seq<string>, f: string -> Option<T>): (r: Option<seq<T>>)
    ensures r.Some? <==> forall i :: 0 <= i < |pieces| ==> f(pieces[i]).Some?
    ensures r.Some? ==> |r.value| == |pieces| && forall i :: 0 <= i < |pieces| ==> f(pieces[i]) == Some(r.value[i])
  {
    if pieces == [] then Some([])
    else match f(pieces[0])
      case None => None
      case Some(x) =>
        match ParseEach(pieces[1..], f)
        case None => None
        case Some(xs) =>
          assert forall i :: 1 <= i < |pieces| ==> pieces[i] == pieces[1..][i - 1];
          Some([x] + xs)
  }

  // ---------------------------------------------------------------- blank lines

  /** Lines trimmed, with the ones that are blank after trimming dropped
      (the `lines().map(trim).filter(non-empty)` idiom used by the grid readers). */
  function NonBlankTrimmed(ls: seq<string>): (r: seq<string>)
    ensures |r| <= |ls|
    ensures forall i :: 0 <= i < |r| ==> r[i] != []
  {
    if ls == [] then []
    else
      var t := Trim(ls[0]);
      (if t == [] then [] else [t]) + NonBlankTrimmed(ls[1..])
  }

  predicate AllTrimmed(ls: seq<string>)
  {
    forall i :: 0 <= i < |ls| ==> Trim(ls[i]) == ls[i]
  }

  /** Every kept line is already trimmed. */
  lemma {:induction false} NonBlankTrimmedTrimmed(ls: seq<string>)
    ensures AllTrimmed(NonBlankTrimmed(ls))
  {
    if ls != [] {
      NonBlankTrimmedTrimmed(ls[1..]);
      var t := Trim(ls[0]);
      var rest := NonBlankTrimmed(ls[1..]);
      if t == [] {
        assert NonBlankTrimmed(ls) == rest;
      } else {
        TrimIdempotent(ls[0]);
        assert NonBlankTrimmed(ls) == [t] + rest;
        AllTrimmedCons(t, rest);
      }
    }
  }

  lemma AllTrimmedCons(t: string, rest: seq<string>)
    requires Trim(t) == t && AllTrimmed(rest)
    ensures AllTrimmed([t] + rest)
  {
    var r := [t] + rest;
    forall i | 0 <= i < |r| ensures Trim(r[i]) == r[i] {
      if i > 0 { assert r[i] == rest[i - 1]; }
    }
  }

  /** Lines that are already non-empty and free of whitespace are kept as they are. */
  lemma {:induction false} NonBlankOfVisible(ls: seq<string>)
    requires forall i :: 0 <= i < |ls| ==> ls[i] != [] && NoWhitespace(ls[i])
    ensures NonBlankTrimmed(ls) == ls
  {
    if ls != [] {
      var l, rest := ls[0], ls[1..];
      NonBlankOfVisible(rest);
      VisibleLine(l);
      assert NonBlankTrimmed(ls) == [l] + NonBlankTrimmed(rest);
      assert ls == [l] + rest;
    }
  }

  lemma VisibleLine(l: string)
    requires l != [] && NoWhitespace(l)
    ensures Trim(l) == l
  {
    assert !IsWhitespace(l[0]) && !IsWhitespace(l[|l| - 1]);
    VisibleTrimmed(l);
  }

}

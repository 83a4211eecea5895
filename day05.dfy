// Day 5: print queue. Ordering rules "a|b" say page a goes before page b;
// an update (a comma-separated list of pages) is accepted when no
// neighbouring pair breaks a rule, and part one sums the middle pages of the
// accepted updates.
module Day05 {
  import opened Wrappers
  import opened Text

  type Page = nat
  /** An update line always holds at least one page. */
  type Update = u: seq<Page> | |u| >= 1 witness [0]
  /** The `isBeforeMap`: each predecessor with its successors in rule order. */
  type Rules = map<Page, seq<Page>>

  /** JavaScript numbers hold integers exactly below 2^53. */
  const SafeIntegerBound: nat := 0x20_0000_0000_0000

  /** `Number(token)` on a page token: surrounding whitespace ignored, then a
      decimal integer. */
  function PageNumber(s: string): (r: Option<Page>)
    ensures r.Some? ==> r.value < SafeIntegerBound
  {
    ParseNat(Trim(s), SafeIntegerBound)
  }

  /** A rule line `a|b`; pieces after the second are ignored, as the
      destructuring `[predecessor, successor]` does. */
  function ParseRule(line: string): (r: Option<(Page, Page)>)
    ensures r.Some? <==>
      |Split(line, '|')| >= 2 && PageNumber(Split(line, '|')[0]).Some? && PageNumber(Split(line, '|')[1]).Some?
    ensures r.Some? ==>
      Some(r.value.0) == PageNumber(Split(line, '|')[0]) && Some(r.value.1) == PageNumber(Split(line, '|')[1])
  {
    var pieces := Split(line, '|');
    if |pieces| < 2 then None
    else match (PageNumber(pieces[0]), PageNumber(pieces[1]))
      case (Some(a), Some(b)) => Some((a, b))
      case _ => None
  }

  /** An update line: every comma-separated piece is a page. */
  function ParseUpdate(line: string): (r: Option<Update>)
    ensures r.Some? ==>
      |r.value| == |Split(line, ',')| &&
      forall i :: 0 <= i < |r.value| ==> PageNumber(Split(line, ',')[i]) == Some(r.value[i])
    ensures r.None? ==> exists i :: 0 <= i < |Split(line, ',')| && PageNumber(Split(line, ',')[i]).None?
  {
    var pieces := Split(line, ',');
    var pages := ParseEach<Page>(pieces, PageNumber);
    assert pages.Some? ==> |pages.value| == |pieces| && forall i :: 0 <= i < |pieces| ==> PageNumber(pieces[i]) == Some(pages.value[i]);
    assert pages.None? ==> exists i :: 0 <= i < |pieces| && !PageNumber(pieces[i]).Some?;
    if pages.None? then None
    else
      var u: Update := pages.value;
      Some(u)
  }

  /** A line of whitespace only, which the blank-line separator of the input
      matches. */
  predicate Blank(l: string)
  {
    AllWhitespace(l)
  }

  /** The first blank line, or the number of lines when there is none. */
  function FirstBlank(ls: seq<string>): (k: nat)
    ensures k <= |ls|
    ensures forall i :: 0 <= i < k ==> !Blank(ls[i])
    ensures k < |ls| ==> Blank(ls[k])
  {
    if ls == [] || Blank(ls[0]) then 0
    else
      var k := 1 + FirstBlank(ls[1..]);
      assert forall i :: 1 <= i < k ==> ls[i] == ls[1..][i - 1];
      k
  }

  function DropBlank(ls: seq<string>): (r: seq<string>)
    ensures |r| <= |ls| && r == ls[|ls| - |r|..]
    ensures r == [] || !Blank(r[0])
  {
    if ls == [] || !Blank(ls[0]) then ls else DropBlank(ls[1..])
  }

  /** `input.trim().split(/\n\s*\n/)`, first two parts: the rule lines
      before the first blank line, and after that run of blank lines the
      update lines up to the next one. With no blank line the update part is
      undefined and `updates.trim()` throws: `None`. */
  function Sections(input: string): (r: Option<(seq<string>, seq<string>)>)
  {
    SectionsOf(Lines(Trim(input)))
  }

  function SectionsOf(ls: seq<string>): (r: Option<(seq<string>, seq<string>)>)
    ensures r.None? <==> forall i :: 0 <= i < |ls| ==> !Blank(ls[i])
    ensures r.Some? ==> forall i :: 0 <= i < |r.value.0| ==> !Blank(r.value.0[i])
    ensures r.Some? ==> forall i :: 0 <= i < |r.value.1| ==> !Blank(r.value.1[i])
  {
    var k := FirstBlank(ls);
    if k == |ls| then None
    else
      var rest := DropBlank(ls[k..]);
      var n := FirstBlank(rest);
      assert forall i :: 0 <= i < n ==> rest[..n][i] == rest[i];
      Some((ls[..k], rest[..n]))
  }

  lemma {:induction false} FirstBlankOf(pre: seq<string>, rest: seq<string>)
    requires forall i :: 0 <= i < |pre| ==> !Blank(pre[i])
    requires rest == [] || Blank(rest[0])
    ensures FirstBlank(pre + rest) == |pre|
  {
    if pre != [] {
      FirstBlankOf(pre[1..], rest);
      assert (pre + rest)[1..] == pre[1..] + rest;
    } else {
      assert pre + rest == rest;
    }
  }

  /** Rule lines, a blank line and update lines fall apart into the two
      sections. */
  lemma SectionsLayout(rs: seq<string>, us: seq<string>)
    requires forall i :: 0 <= i < |rs| ==> !Blank(rs[i])
    requires forall i :: 0 <= i < |us| ==> !Blank(us[i])
    ensures SectionsOf(rs + [""] + us) == Some((rs, us))
  {
    var ls := rs + [""] + us;
    FirstBlankOf(rs, [""] + us);
    assert ls == rs + ([""] + us);
    assert ls[|rs|..] == [""] + us && ls[..|rs|] == rs;
    assert ([""] + us)[1..] == us;
    assert DropBlank([""] + us) == us;
    FirstBlankOf(us, []);
    assert us + [] == us;
  }

  /** The two sections parsed: every rule line a rule, every update line
      (already trimmed, blank ones dropped) an update. A failed parse names a
      line that does not parse. */
  function ParseSections(ruleLines: seq<string>, updateLines: seq<string>): (r: Option<(seq<(Page, Page)>, seq<Update>)>)
    ensures r.Some? ==>
      |r.value.0| == |ruleLines| &&
      forall i :: 0 <= i < |ruleLines| ==> ParseRule(ruleLines[i]) == Some(r.value.0[i])
    ensures r.Some? ==>
      |r.value.1| == |updateLines| &&
      forall i :: 0 <= i < |r.value.1| ==> ParseUpdate(updateLines[i]) == Some(r.value.1[i])
    ensures r.None? ==>
      (exists i :: 0 <= i < |ruleLines| && ParseRule(ruleLines[i]).None?) ||
      (exists i :: 0 <= i < |updateLines| && ParseUpdate(updateLines[i]).None?)
  {
    var lines := updateLines;
    var rules := ParseEach<(Page, Page)>(ruleLines, ParseRule);
    var updates := ParseEach<Update>(lines, ParseUpdate);
    assert rules.None? ==> exists i :: 0 <= i < |ruleLines| && !ParseRule(ruleLines[i]).Some?;
    assert updates.None? ==> exists i :: 0 <= i < |lines| && !ParseUpdate(lines[i]).Some?;
    if rules.None? then None
    else if updates.None? then None
    else Some((rules.value, updates.value))
  }

  /** What `parse` reads: the rule pairs in input order and the updates;
      `None` without a blank line between the two sections or when a line
      does not parse. */
  function ParseInput(input: string): (r: Option<(seq<(Page, Page)>, seq<Update>)>)
    ensures Sections(input).None? ==> r.None?
    ensures r.Some? ==>
      |r.value.0| == |Sections(input).value.0| &&
      forall i :: 0 <= i < |r.value.0| ==> ParseRule(Sections(input).value.0[i]) == Some(r.value.0[i])
    ensures r.Some? ==>
      |r.value.1| == |NonBlankTrimmed(Sections(input).value.1)| &&
      forall i :: 0 <= i < |r.value.1| ==> ParseUpdate(NonBlankTrimmed(Sections(input).value.1)[i]) == Some(r.value.1[i])
  {
    match Sections(input)
    case None => None
    case Some((ruleLines, updateLines)) => ParseSections(ruleLines, NonBlankTrimmed(updateLines))
  }

  /** The successors listed for `a` by the rules, in rule order. */
  function Successors(rules: seq<(Page, Page)>, a: Page): seq<Page>
  {
    if rules == [] then []
    else
      var last := rules[|rules| - 1];
      Successors(rules[..|rules| - 1], a) + (if last.0 == a then [last.1] else [])
  }

  lemma {:induction false} SuccessorsIff(rules: seq<(Page, Page)>, a: Page, b: Page)
    ensures b in Successors(rules, a) <==> (a, b) in rules
  {
    if rules != [] {
      var init := rules[..|rules| - 1];
      SuccessorsIff(init, a, b);
      assert rules == init + [rules[|rules| - 1]];
    }
  }

  /** `isBefore(a, b)`: some rule lists b after a. */
  predicate IsBefore(m: Rules, a: Page, b: Page)
  {
    a in m && b in m[a]
  }

  /** The rules loop of `parse`: each rule appends its successor to the list
      kept for its predecessor. */
  method BuildBeforeMap(rules: seq<(Page, Page)>) returns (m: Rules)
    ensures forall a: Page :: a in m ==> m[a] == Successors(rules, a) && m[a] != []
    ensures forall a: Page :: a !in m ==> Successors(rules, a) == []
    ensures forall a: Page, b: Page :: IsBefore(m, a, b) <==> (a, b) in rules
  {
    m := map[];
    for i := 0 to |rules|
      invariant forall a: Page :: a in m ==> m[a] == Successors(rules[..i], a) && m[a] != []
      invariant forall a: Page :: a !in m ==> Successors(rules[..i], a) == []
    {
      var (predecessor, successor) := rules[i];
      var before := if predecessor in m then m[predecessor] else [];
      before := before + [successor];
      m := m[predecessor := before];
      assert rules[..i + 1][..i] == rules[..i];
    }
    assert rules[..|rules|] == rules;
    forall a: Page, b: Page ensures IsBefore(m, a, b) <==> (a, b) in rules {
      SuccessorsIff(rules, a, b);
    }
  }

  /** `parse`: `None` where the source throws or reads a malformed
      number; otherwise the rule map and the updates. */
  method Parse(input: string) returns (r: Option<(Rules, seq<Update>)>)
    ensures r.None? <==> ParseInput(input).None?
    ensures r.Some? ==> r.value.1 == ParseInput(input).value.1
    ensures r.Some? ==> forall a: Page, b: Page :: IsBefore(r.value.0, a, b) <==> (a, b) in ParseInput(input).value.0
  {
    match ParseInput(input)
    case None =>
      r := None;
    case Some((rules, updates)) =>
      var m := BuildBeforeMap(rules);
      r := Some((m, updates));
  }

  /** No neighbouring pair of the update is listed the other way round. */
  predicate AdjacentOrdered(m: Rules, u: Update)
  {
    forall i :: 1 <= i < |u| ==> !IsBefore(m, u[i], u[i - 1])
  }

  /** `isValidUpdate`: scan the neighbouring pairs from the back and reject
      at the first pair whose later page must come before the earlier one. */
  method IsValidUpdate(u: Update, m: Rules) returns (valid: bool)
    ensures valid <==> AdjacentOrdered(m, u)
  {
    var i := |u| - 1;
    while i > 0
      invariant 0 <= i < |u|
      invariant forall j :: i < j < |u| ==> !IsBefore(m, u[j], u[j - 1])
    {
      if IsBefore(m, u[i], u[i - 1]) {
        return false;
      }
      i := i - 1;
    }
    return true;
  }

  /** The same check stated on the parsed rule pairs. */
  predicate OrderedBy(rules: seq<(Page, Page)>, u: Update)
  {
    forall i :: 1 <= i < |u| ==> (u[i], u[i - 1]) !in rules
  }

  /** Every rule among an update's pages respected, not just between
      neighbours. */
  predicate FullyOrderedBy(rules: seq<(Page, Page)>, u: Update)
  {
    forall i, j :: 0 <= i < j < |u| ==> (u[j], u[i]) !in rules
  }

  lemma FullyOrderedIsOrdered(rules: seq<(Page, Page)>, u: Update)
    requires FullyOrderedBy(rules, u)
    ensures OrderedBy(rules, u)
  {
    forall i | 1 <= i < |u| ensures (u[i], u[i - 1]) !in rules {
      assert 0 <= i - 1 < i < |u|;
    }
  }

  /** Only neighbours are checked: with the single rule 3|1 the update
      1,2,3 is accepted although 3 must come before 1. The puzzle's inputs
      give a rule for every pair of pages in an update, which closes the
      gap. */
  lemma NeighboursOnly()
    ensures OrderedBy([(3, 1)], [1, 2, 3]) && !FullyOrderedBy([(3, 1)], [1, 2, 3])
  {
    var u: Update := [1, 2, 3];
    assert (u[2], u[0]) in [(3, 1)];
  }

  /** The middle page, `update[Math.floor(update.length / 2)]`. */
  function Middle(u: Update): (p: Page)
    ensures p in u
  {
    u[|u| / 2]
  }

  /** An odd update has as many pages before its middle as after it; an even
      one has one more before. */
  lemma MiddleCentred(u: Update)
    ensures u[|u| / 2] == Middle(u)
    ensures |u| % 2 == 1 ==> |u[..|u| / 2]| == |u[|u| / 2 + 1..]|
    ensures |u| % 2 == 0 ==> |u[..|u| / 2]| == |u[|u| / 2 + 1..]| + 1
  {
  }

  /** `sumMiddleNumbers`. */
  function SumMiddles(us: seq<Update>): nat
  {
    if us == [] then 0 else SumMiddles(us[..|us| - 1]) + Middle(us[|us| - 1])
  }

  lemma {:induction false} SumMiddlesAppend(a: seq<Update>, b: seq<Update>)
    ensures SumMiddles(a + b) == SumMiddles(a) + SumMiddles(b)
    decreases |b|
  {
    if b == [] {
      assert a + b == a;
    } else {
      var b' := b[..|b| - 1];
      SumMiddlesAppend(a, b');
      assert (a + b)[..|a + b| - 1] == a + b';
    }
  }

  /** The accepted updates, in order. */
  function ValidUpdates(rules: seq<(Page, Page)>, us: seq<Update>): (r: seq<Update>)
    ensures |r| <= |us|
    ensures forall i :: 0 <= i < |r| ==> r[i] in us && OrderedBy(rules, r[i])
  {
    if us == [] then []
    else
      var init := ValidUpdates(rules, us[..|us| - 1]);
      var last := us[|us| - 1];
      assert forall u :: u in us[..|us| - 1] ==> u in us;
      init + (if OrderedBy(rules, last) then [last] else [])
  }

  lemma SolveStep(rules: seq<(Page, Page)>, us: seq<Update>, i: nat)
    requires i < |us|
    ensures SumMiddles(ValidUpdates(rules, us[..i + 1])) ==
      SumMiddles(ValidUpdates(rules, us[..i])) + (if OrderedBy(rules, us[i]) then Middle(us[i]) else 0)
  {
    assert us[..i + 1][..i] == us[..i];
    var pre := ValidUpdates(rules, us[..i]);
    if OrderedBy(rules, us[i]) {
      assert ValidUpdates(rules, us[..i + 1]) == pre + [us[i]];
      SumMiddlesAppend(pre, [us[i]]);
      assert SumMiddles([us[i]]) == Middle(us[i]) by { var one: seq<Update> := [us[i]]; assert one[..0] == []; }
    } else {
      assert ValidUpdates(rules, us[..i + 1]) == pre;
    }
  }

  /** The filter and the reduce of `solve1`, over a parsed rule map. */
  method SumValidMiddles(m: Rules, ghost rules: seq<(Page, Page)>, us: seq<Update>) returns (sum: nat)
    requires forall a: Page, b: Page :: IsBefore(m, a, b) <==> (a, b) in rules
    ensures sum == SumMiddles(ValidUpdates(rules, us))
  {
    sum := 0;
    for i := 0 to |us|
      invariant sum == SumMiddles(ValidUpdates(rules, us[..i]))
    {
      var ok := IsValidUpdate(us[i], m);
      assert ok <==> OrderedBy(rules, us[i]);
      SolveStep(rules, us, i);
      if ok {
        sum := sum + Middle(us[i]);
      }
    }
    assert us[..|us|] == us;
  }

  /** `solve1`: the middle pages of the accepted updates, summed. `None` is
      a parse that throws. */
  method Solve1(input: string) returns (r: Option<nat>)
    ensures r.None? <==> ParseInput(input).None?
    ensures r.Some? ==> r.value == SumMiddles(ValidUpdates(ParseInput(input).value.0, ParseInput(input).value.1))
  {
    var parsed := Parse(input);
    if parsed.None? {
      return None;
    }
    var (m, us) := parsed.value;
    var sum := SumValidMiddles(m, ParseInput(input).value.0, us);
    return Some(sum);
  }

  /** A rule written as `a|b` reads back as the pair. */
  lemma RuleRoundTrip(a: Page, b: Page)
    requires a < SafeIntegerBound && b < SafeIntegerBound
    ensures ParseRule(NatToString(a) + "|" + NatToString(b)) == Some((a, b))
  {
    var sa, sb := NatToString(a), NatToString(b);
    DigitsNoSeparator(sa, '|');
    DigitsNoSeparator(sb, '|');
    SplitTwo(sa, sb, '|');
    PageOfString(a);
    PageOfString(b);
  }

  /** A rule line without a '|' has no successor: an error. */
  lemma RuleNeedsBar(line: string)
    requires '|' !in line
    ensures ParseRule(line) == None
  {
    SplitNoSeparator(line, '|');
  }

  lemma SplitTwo(sa: string, sb: string, c: char)
    requires c !in sa && c !in sb
    ensures Split(sa + [c] + sb, c) == [sa, sb]
  {
    SplitAfterPiece(sa, c, sb);
    SplitNoSeparator(sb, c);
  }

  /** A page printed in decimal reads back as itself. */
  lemma PageOfString(a: Page)
    requires a < SafeIntegerBound
    ensures PageNumber(NatToString(a)) == Some(a)
  {
    DigitsTrimmed(NatToString(a));
    ParseNatToString(a, SafeIntegerBound);
  }

  lemma DigitsNoSeparator(s: string, c: char)
    requires AllDigits(s) && !IsDigit(c)
    ensures c !in s
  {
  }

  function PageTokens(u: Update): (ts: seq<string>)
    ensures |ts| == |u|
    ensures forall i :: 0 <= i < |u| ==> ts[i] == NatToString(u[i])
  {
    seq(|u|, i requires 0 <= i < |u| => NatToString(u[i]))
  }

  /** An update written with commas reads back as the same pages. */
  lemma UpdateRoundTrip(u: Update)
    requires forall i :: 0 <= i < |u| ==> u[i] < SafeIntegerBound
    ensures ParseUpdate(Join(PageTokens(u), ',')) == Some(u)
  {
    var ts := PageTokens(u);
    forall i | 0 <= i < |ts| ensures ',' !in ts[i] && PageNumber(ts[i]) == Some(u[i]) {
      DigitsNoSeparator(ts[i], ',');
      PageOfString(u[i]);
    }
    SplitJoin(ts, ',');
    var r := ParseEach(ts, PageNumber);
    assert r.Some?;
    assert r.value == u;
  }

  /** With rules 1|2 and 2|3, the updates 1,2,3 and 1,3 are accepted and
      3,2,1 is not; the middles of the accepted ones sum to 2 + 3. */
  lemma SolveExample()
    ensures var rules := [(1, 2), (2, 3)];
      var us: seq<Update> := [[1, 2, 3], [3, 2, 1], [1, 3]];
      ValidUpdates(rules, us) == [[1, 2, 3], [1, 3]] && SumMiddles([[1, 2, 3], [1, 3]]) == 5
  {
    var rules := [(1, 2), (2, 3)];
    var us: seq<Update> := [[1, 2, 3], [3, 2, 1], [1, 3]];
    assert OrderedBy(rules, us[0]);
    assert !OrderedBy(rules, us[1]) by { assert (us[1][1], us[1][0]) == (2, 3); }
    assert OrderedBy(rules, us[2]);
    assert us[..2][..1] == [us[0]] && us[..1][..0] == [];
    assert us[..3] == us && us[..3][..2] == us[..2];
    var picked: seq<Update> := [[1, 2, 3], [1, 3]];
    assert picked[..1] == [[1, 2, 3]] && picked[..1][..0] == [];
  }
}

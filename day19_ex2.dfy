// Day 19 part two: in how many ways each design can be laid out. The source
// fills `combinations` left to right, adding the count of every reachable
// start to each end its trie walk finds.
module Day19Ex2 {
  import opened Wrappers
  import opened Text
  import opened Day19Trie
  import opened Day19Parser
  import opened Day19Ex1

  /** The number of ways to lay `s` out from non-empty patterns of `words`. */
  function Ways(words: set<string>, s: string): nat
    decreases |s|, 1, 0
  {
    if |s| == 0 then 1 else WaysLast(words, s, |s|)
  }

  /** The ways whose last piece starts before `i`. */
  function WaysLast(words: set<string>, s: string, i: nat): nat
    requires i <= |s|
    decreases |s|, 0, i
  {
    if i == 0 then 0
    else WaysLast(words, s, i - 1) + (if s[i - 1..] in words then Ways(words, s[..i - 1]) else 0)
  }

  /** A design has a way exactly when it is possible in the sense of part
      one. */
  lemma {:induction false} WaysPositive(words: set<string>, s: string)
    ensures Ways(words, s) > 0 <==> Possible(words, s)
    decreases |s|, 1, 0
  {
    if |s| > 0 {
      WaysLastPositive(words, s, |s|);
    }
  }

  lemma {:induction false} WaysLastPositive(words: set<string>, s: string, i: nat)
    requires i <= |s|
    ensures WaysLast(words, s, i) > 0 <==> LastPiece(words, s, i)
    decreases |s|, 0, i
  {
    if i > 0 {
      WaysLastPositive(words, s, i - 1);
      WaysPositive(words, s[..i - 1]);
    }
  }

  // ---------------------------------------------------------------------------
  // The ways as sets of decompositions.

  /** Every decomposition in `ds` with `w` appended as its last piece. */
  function Snoc(ds: set<seq<string>>, w: string): set<seq<string>>
  {
    set d | d in ds :: d + [w]
  }

  lemma SnocIn(ds: set<seq<string>>, w: string, d: seq<string>)
    requires d in ds
    ensures d + [w] in Snoc(ds, w)
  {
  }

  /** A member of `Snoc(ds, w)` ends with `w` after a member of `ds`. */
  lemma SnocOf(ds: set<seq<string>>, w: string, e: seq<string>)
    requires e in Snoc(ds, w)
    ensures |e| > 0 && e[|e| - 1] == w && e[..|e| - 1] in ds
  {
    var d :| d in ds && e == d + [w];
    assert e[..|e| - 1] == d;
  }

  /** Appending one piece loses no decomposition and merges none. */
  lemma {:induction false} SnocCard(ds: set<seq<string>>, w: string)
    ensures |Snoc(ds, w)| == |ds|
    decreases |ds|
  {
    if ds != {} {
      var d :| d in ds;
      var rest := ds - {d};
      SnocCard(rest, w);
      forall e | e in Snoc(ds, w)
        ensures e in Snoc(rest, w) + {d + [w]}
      {
        SnocOf(ds, w, e);
        if e[..|e| - 1] != d {
          assert e == e[..|e| - 1] + [w];
          SnocIn(rest, w, e[..|e| - 1]);
        }
      }
      forall e | e in Snoc(rest, w) + {d + [w]}
        ensures e in Snoc(ds, w)
      {
        if e in Snoc(rest, w) {
          SnocOf(rest, w, e);
          assert e == e[..|e| - 1] + [w];
          SnocIn(ds, w, e[..|e| - 1]);
        } else {
          SnocIn(ds, w, d);
        }
      }
      assert Snoc(ds, w) == Snoc(rest, w) + {d + [w]};
      if d + [w] in Snoc(rest, w) {
        SnocOf(rest, w, d + [w]);
      }
    }
  }

  /** The decompositions of `s` into non-empty patterns of `words`, built as
      `Ways` counts them. */
  function Decompositions(words: set<string>, s: string): set<seq<string>>
    decreases |s|, 1, 0
  {
    if |s| == 0 then {[]} else DecompositionsLast(words, s, |s|)
  }

  function DecompositionsLast(words: set<string>, s: string, i: nat): set<seq<string>>
    requires i <= |s|
    decreases |s|, 0, i
  {
    if i == 0 then {}
    else
      var here := if s[i - 1..] in words then Snoc(Decompositions(words, s[..i - 1]), s[i - 1..]) else {};
      DecompositionsLast(words, s, i - 1) + here
  }

  /** The last piece of a decomposition counted before `i` starts before
      `i`, so it is longer than `|s| - i`. */
  lemma {:induction false} LastPieceLength(words: set<string>, s: string, i: nat, d: seq<string>)
    requires i <= |s| && d in DecompositionsLast(words, s, i)
    ensures |d| > 0 && |d[|d| - 1]| > |s| - i
    decreases i
  {
    if d in DecompositionsLast(words, s, i - 1) {
      LastPieceLength(words, s, i - 1, d);
    } else {
      SnocOf(Decompositions(words, s[..i - 1]), s[i - 1..], d);
    }
  }

  /** `Ways` counts the decompositions. */
  lemma {:induction false} WaysCountsDecompositions(words: set<string>, s: string)
    ensures |Decompositions(words, s)| == Ways(words, s)
    decreases |s|, 1, 0
  {
    if |s| > 0 {
      WaysLastCounts(words, s, |s|);
    }
  }

  lemma {:induction false} WaysLastCounts(words: set<string>, s: string, i: nat)
    requires i <= |s|
    ensures |DecompositionsLast(words, s, i)| == WaysLast(words, s, i)
    decreases |s|, 0, i
  {
    if i > 0 {
      WaysLastCounts(words, s, i - 1);
      var earlier := DecompositionsLast(words, s, i - 1);
      if s[i - 1..] in words {
        var here := Snoc(Decompositions(words, s[..i - 1]), s[i - 1..]);
        WaysCountsDecompositions(words, s[..i - 1]);
        SnocCard(Decompositions(words, s[..i - 1]), s[i - 1..]);
        forall d | d in earlier
          ensures d !in here
        {
          LastPieceLength(words, s, i - 1, d);
          if d in here {
            SnocOf(Decompositions(words, s[..i - 1]), s[i - 1..], d);
          }
        }
        assert earlier * here == {};
        assert |earlier + here| == |earlier| + |here|;
      }
    }
  }

  /** Every member of `Decompositions` is a decomposition. */
  lemma {:induction false} DecompositionSound(words: set<string>, s: string, d: seq<string>)
    requires d in Decompositions(words, s)
    ensures Pieces(words, d) && Concat(d) == s
    decreases |s|, 1, 0
  {
    if |s| > 0 {
      DecompositionLastSound(words, s, |s|, d);
    }
  }

  lemma {:induction false} DecompositionLastSound(words: set<string>, s: string, i: nat, d: seq<string>)
    requires i <= |s| && d in DecompositionsLast(words, s, i)
    ensures Pieces(words, d) && Concat(d) == s
    decreases |s|, 0, i
  {
    if d in DecompositionsLast(words, s, i - 1) {
      DecompositionLastSound(words, s, i - 1, d);
    } else {
      SnocOf(Decompositions(words, s[..i - 1]), s[i - 1..], d);
      var init := d[..|d| - 1];
      DecompositionSound(words, s[..i - 1], init);
      assert d == init + [s[i - 1..]];
      ConcatSnoc(init, s[i - 1..]);
      assert s == s[..i - 1] + s[i - 1..];
    }
  }

  /** Decompositions that end with a piece starting at `m` are counted by
      every later bound. */
  lemma {:induction false} DecompositionLastFrom(words: set<string>, s: string, i: nat, m: nat, d: seq<string>)
    requires m < i <= |s| && s[m..] in words && d in Decompositions(words, s[..m])
    ensures d + [s[m..]] in DecompositionsLast(words, s, i)
    decreases i
  {
    if m < i - 1 {
      DecompositionLastFrom(words, s, i - 1, m, d);
    } else {
      SnocIn(Decompositions(words, s[..m]), s[m..], d);
    }
  }

  /** Every decomposition is a member of `Decompositions`. */
  lemma {:induction false} DecompositionComplete(words: set<string>, d: seq<string>)
    requires Pieces(words, d)
    ensures d in Decompositions(words, Concat(d))
    decreases |d|
  {
    if d != [] {
      var init, last := d[..|d| - 1], d[|d| - 1];
      assert d == init + [last];
      DecompositionComplete(words, init);
      ConcatSnoc(init, last);
      var s := Concat(d);
      var m := |Concat(init)|;
      assert s[m..] == last && s[..m] == Concat(init);
      DecompositionLastFrom(words, s, |s|, m, init);
    }
  }

  /** The members of `Decompositions(words, s)` are exactly the ways to lay
      `s` out from non-empty patterns, and there are `Ways(words, s)` of
      them. */
  lemma DecompositionsExact(words: set<string>, s: string)
    ensures forall d :: d in Decompositions(words, s) <==> Pieces(words, d) && Concat(d) == s
    ensures |Decompositions(words, s)| == Ways(words, s)
  {
    forall d
      ensures d in Decompositions(words, s) <==> Pieces(words, d) && Concat(d) == s
    {
      if d in Decompositions(words, s) {
        DecompositionSound(words, s, d);
      }
      if Pieces(words, d) && Concat(d) == s {
        DecompositionComplete(words, d);
      }
    }
    WaysCountsDecompositions(words, s);
  }

  // ---------------------------------------------------------------------------
  // The table.

  /** What `combinations[k]` holds once the starts before `i` are done. */
  function Tally(words: set<string>, design: string, i: nat, k: nat): nat
    requires i <= |design| && k <= |design|
  {
    if k <= i then Ways(words, design[..k]) else WaysLast(words, design[..k], i)
  }

  /** Processing start `i` adds its count to every end it reaches. */
  lemma TallyFrom(words: set<string>, design: string, i: nat, k: nat)
    requires i < |design| && k <= |design|
    ensures Tally(words, design, i + 1, k) ==
      Tally(words, design, i, k) + (if i < k && design[i..k] in words then Ways(words, design[..i]) else 0)
  {
    if k > i {
      var s := design[..k];
      assert s[i..] == design[i..k];
      assert s[..i] == design[..i];
      assert WaysLast(words, s, i + 1) == WaysLast(words, s, i) + (if s[i..] in words then Ways(words, s[..i]) else 0);
      if k == i + 1 {
        assert Ways(words, s) == WaysLast(words, s, i + 1);
      }
    }
  }

  /** `count_design_combinations`: the number of ways the trie's patterns
      lay the design out. The source adds into `u64`s; the model's counts
      are unbounded. */
  method CountDesignCombinations(trie: Trie, design: string) returns (count: nat)
    requires trie.Valid()
    ensures count == Ways(trie.words, design)
  {
    var n := |design|;
    ghost var words := trie.words;
    var combinations := new nat[n + 1](_ => 0);
    combinations[0] := 1;
    for i := 0 to n
      invariant forall k :: 0 <= k <= n ==> combinations[k] == Tally(words, design, i, k)
    {
      forall k | 0 <= k <= n
        ensures Tally(words, design, i + 1, k) ==
          Tally(words, design, i, k) + (if i < k && design[i..k] in words then Ways(words, design[..i]) else 0)
      {
        TallyFrom(words, design, i, k);
      }
      if combinations[i] == 0 {
        continue;
      }
      AddWays(trie, design, combinations, i);
    }
    assert design[..n] == design;
    count := combinations[n];
  }

  /** The inner loop of `count_design_combinations`: walk the trie from
      position `i` and add the ways to reach `i` to every end `k` where
      `design[i..k]` is a pattern. */
  method AddWays(trie: Trie, design: string, combinations: array<nat>, i: nat)
    requires trie.Valid() && combinations.Length == |design| + 1 && i < |design|
    modifies combinations
    ensures forall k :: 0 <= k <= |design| ==>
      combinations[k] == old(combinations[k]) + (if i < k && design[i..k] in trie.words then old(combinations[i]) else 0)
  {
    var n := |design|;
    var nodes := trie.nodes;
    var node := 0;
    var j := i;
    while j < n
      invariant i <= j <= n && node < |nodes|
      invariant Walk(nodes, 0, design[i..j]) == Some(node)
      invariant combinations[i] == old(combinations[i])
      invariant forall k :: 0 <= k <= n ==>
        combinations[k] == old(combinations[k]) + (if i < k <= j && design[i..k] in trie.words then combinations[i] else 0)
    {
      var ch := design[j];
      if ch in nodes[node].children {
        WalkOn(trie, design, i, j, node);
        node := nodes[node].children[ch];
        j := j + 1;
        EndIsWord(trie, design[i..j], node);
        if nodes[node].isEnd {
          combinations[j] := combinations[j] + combinations[i];
        }
      } else {
        DeadEnd(trie, design, i, j, node);
        break;
      }
    }
  }

  // ---------------------------------------------------------------------------
  // Solving.

  /** The ways summed over the designs. */
  function TotalWays(words: set<string>, designs: seq<string>): nat
  {
    if designs == [] then 0
    else TotalWays(words, designs[..|designs| - 1]) + Ways(words, designs[|designs| - 1])
  }

  /** Every possible design adds at least one way, so the total is at least
      the part one count, and is zero exactly when that count is. */
  lemma {:induction false} TotalCoversPossible(words: set<string>, designs: seq<string>)
    ensures PossibleCount(words, designs) <= TotalWays(words, designs)
    ensures TotalWays(words, designs) == 0 <==> PossibleCount(words, designs) == 0
  {
    if designs != [] {
      TotalCoversPossible(words, designs[..|designs| - 1]);
      WaysPositive(words, designs[|designs| - 1]);
    }
  }

  /** `designs.iter().map(|design| count_design_combinations(..)).sum()`. */
  method SumCombinations(trie: Trie, designs: seq<string>) returns (total: nat)
    requires trie.Valid()
    ensures total == TotalWays(trie.words, designs)
  {
    total := 0;
    for k := 0 to |designs|
      invariant total == TotalWays(trie.words, designs[..k])
    {
      var count := CountDesignCombinations(trie, designs[k]);
      assert designs[..k + 1][..k] == designs[..k];
      total := total + count;
    }
    assert designs[..|designs|] == designs;
  }

  /** `solve`: the number of ways summed over all designs. */
  method Solve(input: string) returns (r: Result<nat, ParseError>)
    ensures ParseInput(input).Err? ==> r == Err(NoBlankLine)
    ensures ParseInput(input).Ok? ==> var (towels, designs) := ParseInput(input).value;
      r == Ok(TotalWays(Patterns(towels), designs))
  {
    var parsed := ParseInput(input);
    if parsed.Err? {
      return Err(parsed.error);
    }
    var (towels, designs) := parsed.value;
    var trie := BuildTrie(towels);
    var total := SumCombinations(trie, designs);
    return Ok(total);
  }
}

// Day 19 part one: which designs can be laid out from the towel patterns.
// The source fills `is_constructible` left to right, walking the trie from
// every position the towels can reach.
module Day19Ex1 {
  import opened Wrappers
  import opened Text
  import opened Day19Trie
  import opened Day19Parser

  /** `s` is a sequence of non-empty patterns from `words`, laid end to end. */
  predicate Possible(words: set<string>, s: string)
    decreases |s|, 1, 0
  {
    |s| == 0 || LastPiece(words, s, |s|)
  }

  /** The last piece of `s` can start before `i`: some `m < i` has `s[m..]`
      in `words` and `s[..m]` possible. */
  predicate LastPiece(words: set<string>, s: string, i: nat)
    requires i <= |s|
    decreases |s|, 0, i
  {
    i > 0 && (LastPiece(words, s, i - 1) || (s[i - 1..] in words && Possible(words, s[..i - 1])))
  }

  /** A piece starting at `m` is one `LastPiece` finds. */
  lemma {:induction false} LastPieceAt(words: set<string>, s: string, i: nat, m: nat)
    requires m < i <= |s| && s[m..] in words && Possible(words, s[..m])
    ensures LastPiece(words, s, i)
    decreases i
  {
    if m < i - 1 {
      LastPieceAt(words, s, i - 1, m);
    }
  }

  /** And every piece `LastPiece` finds has a start. */
  lemma {:induction false} LastPieceStart(words: set<string>, s: string, i: nat) returns (m: nat)
    requires i <= |s| && LastPiece(words, s, i)
    ensures m < i && s[m..] in words && Possible(words, s[..m])
    decreases i
  {
    if LastPiece(words, s, i - 1) {
      m := LastPieceStart(words, s, i - 1);
    } else {
      m := i - 1;
    }
  }

  predicate Pieces(words: set<string>, parts: seq<string>)
  {
    forall k :: 0 <= k < |parts| ==> parts[k] in words && parts[k] != []
  }

  lemma {:induction false} ConcatSnoc(parts: seq<string>, w: string)
    ensures Concat(parts + [w]) == Concat(parts) + w
  {
    if parts != [] {
      assert (parts + [w])[1..] == parts[1..] + [w];
      ConcatSnoc(parts[1..], w);
    }
  }

  /** Concatenated pieces are possible. */
  lemma {:induction false} PossibleOfPieces(words: set<string>, parts: seq<string>)
    requires Pieces(words, parts)
    ensures Possible(words, Concat(parts))
    decreases |parts|
  {
    if parts != [] {
      var init, last := parts[..|parts| - 1], parts[|parts| - 1];
      assert parts == init + [last];
      PossibleOfPieces(words, init);
      ConcatSnoc(init, last);
      var s := Concat(parts);
      var m := |Concat(init)|;
      assert s[m..] == last && s[..m] == Concat(init);
      LastPieceAt(words, s, |s|, m);
    }
  }

  /** A possible design has pieces. */
  lemma {:induction false} PiecesOfPossible(words: set<string>, s: string) returns (parts: seq<string>)
    requires Possible(words, s)
    ensures Pieces(words, parts) && Concat(parts) == s
    decreases |s|
  {
    if s == [] {
      parts := [];
    } else {
      var m := LastPieceStart(words, s, |s|);
      var init := PiecesOfPossible(words, s[..m]);
      parts := init + [s[m..]];
      ConcatSnoc(init, s[m..]);
      assert s == s[..m] + s[m..];
    }
  }

  /** `Possible` is the existence of a decomposition into towels. */
  lemma PossibleIffPieces(words: set<string>, s: string)
    ensures Possible(words, s) <==> exists parts :: Pieces(words, parts) && Concat(parts) == s
  {
    if Possible(words, s) {
      var parts := PiecesOfPossible(words, s);
    }
    if exists parts :: Pieces(words, parts) && Concat(parts) == s {
      var parts :| Pieces(words, parts) && Concat(parts) == s;
      PossibleOfPieces(words, parts);
    }
  }

  /** What the table holds for an end `k` once the starts before `i` are
      done: the answer for `k <= i`, and for a longer prefix whether a last
      piece starts before `i`. */
  predicate Reached(words: set<string>, design: string, i: nat, k: nat)
    requires i <= |design| && k <= |design|
  {
    if k <= i then Possible(words, design[..k]) else LastPiece(words, design[..k], i)
  }

  /** Processing start `i` moves the table from `i` to `i + 1`. */
  lemma PieceFrom(words: set<string>, design: string, i: nat, k: nat)
    requires i < |design| && k <= |design|
    ensures Reached(words, design, i + 1, k) ==
      (Reached(words, design, i, k) || (i < k && design[i..k] in words && Possible(words, design[..i])))
  {
    if k > i {
      var s := design[..k];
      assert s[i..] == design[i..k];
      assert s[..i] == design[..i];
      assert LastPiece(words, s, i + 1) == (LastPiece(words, s, i) || (s[i..] in words && Possible(words, s[..i])));
      if k == i + 1 {
        assert Possible(words, s) == LastPiece(words, s, i + 1);
      }
    }
  }

  /** A walk that has no child for the next character is dead for every
      longer piece. */
  lemma DeadEnd(trie: Trie, design: string, i: nat, j: nat, node: nat)
    requires trie.Valid() && i <= j < |design|
    requires node < |trie.nodes| && Walk(trie.nodes, 0, design[i..j]) == Some(node)
    requires design[j] !in trie.nodes[node].children
    ensures forall k :: j < k <= |design| ==> design[i..k] !in trie.words
  {
    forall k | j < k <= |design|
      ensures design[i..k] !in trie.words
    {
      assert design[i..k] == design[i..j] + design[j..k];
      WalkConcat(trie.nodes, 0, design[i..j], design[j..k]);
    }
  }

  /** The walk of a piece ends at a flagged node iff the piece is a
      pattern. */
  lemma EndIsWord(trie: Trie, p: string, node: nat)
    requires trie.Valid() && node < |trie.nodes| && Walk(trie.nodes, 0, p) == Some(node)
    ensures p in trie.words <==> trie.nodes[node].isEnd
  {
    assert Marked(trie.nodes, p) <==> p in trie.words;
  }

  /** One step of the inner walk. */
  lemma WalkOn(trie: Trie, design: string, i: nat, j: nat, node: nat)
    requires trie.Valid() && i <= j < |design|
    requires node < |trie.nodes| && Walk(trie.nodes, 0, design[i..j]) == Some(node)
    requires design[j] in trie.nodes[node].children
    ensures Walk(trie.nodes, 0, design[i..j + 1]) == Some(trie.nodes[node].children[design[j]])
  {
    var piece := design[i..j + 1];
    assert piece[..j - i] == design[i..j] && piece[j - i] == design[j];
    assert piece == design[i..j] + [design[j]];
    WalkStep(trie.nodes, 0, design[i..j], design[j]);
  }

  /** `is_design_possible`: whether the design splits into patterns of the
      trie. */
  method IsDesignPossible(trie: Trie, design: string) returns (possible: bool)
    requires trie.Valid()
    ensures possible == Possible(trie.words, design)
  {
    var n := |design|;
    ghost var words := trie.words;
    var isConstructible := new bool[n + 1](_ => false);
    isConstructible[0] := true;
    for i := 0 to n
      invariant forall k :: 0 <= k <= n ==> isConstructible[k] == Reached(words, design, i, k)
    {
      forall k | 0 <= k <= n
        ensures Reached(words, design, i + 1, k) ==
          (Reached(words, design, i, k) || (i < k && design[i..k] in words && Possible(words, design[..i])))
      {
        PieceFrom(words, design, i, k);
      }
      if !isConstructible[i] {
        continue;
      }
      MarkEnds(trie, design, isConstructible, i);
    }
    assert design[..n] == design;
    possible := isConstructible[n];
  }

  /** The inner loop of `is_design_possible`: walk the trie from position
      `i` and mark every end `k` where `design[i..k]` is a pattern. The walk
      stops at the end of the design or at the first character without a
      child. */
  method MarkEnds(trie: Trie, design: string, isConstructible: array<bool>, i: nat)
    requires trie.Valid() && isConstructible.Length == |design| + 1 && i < |design|
    modifies isConstructible
    ensures forall k :: 0 <= k <= |design| ==>
      isConstructible[k] == (old(isConstructible[k]) || (i < k && design[i..k] in trie.words))
  {
    var n := |design|;
    var nodes := trie.nodes;
    var node := 0;
    var j := i;
    while j < n
      invariant i <= j <= n && node < |nodes|
      invariant Walk(nodes, 0, design[i..j]) == Some(node)
      invariant forall k :: 0 <= k <= n ==>
        isConstructible[k] == (old(isConstructible[k]) || (i < k <= j && design[i..k] in trie.words))
    {
      var ch := design[j];
      if ch in nodes[node].children {
        WalkOn(trie, design, i, j, node);
        node := nodes[node].children[ch];
        j := j + 1;
        EndIsWord(trie, design[i..j], node);
        if nodes[node].isEnd {
          isConstructible[j] := true;
        }
      } else {
        DeadEnd(trie, design, i, j, node);
        break;
      }
    }
  }

  /** How many of `designs` are possible. */
  function PossibleCount(words: set<string>, designs: seq<string>): (c: nat)
    ensures c <= |designs|
  {
    if designs == [] then 0
    else PossibleCount(words, designs[..|designs| - 1]) + (if Possible(words, designs[|designs| - 1]) then 1 else 0)
  }

  /** The positions of `designs` that hold a possible design. */
  function PossibleIndices(words: set<string>, designs: seq<string>): (r: set<nat>)
    ensures forall k :: k in r <==> 0 <= k < |designs| && Possible(words, designs[k])
  {
    set k: nat | k < |designs| && Possible(words, designs[k])
  }

  /** The count is the number of positions that hold a possible design. */
  lemma {:induction false} PossibleCountIndices(words: set<string>, designs: seq<string>)
    ensures PossibleCount(words, designs) == |PossibleIndices(words, designs)|
  {
    if designs != [] {
      var n := |designs| - 1;
      var init := designs[..n];
      PossibleCountIndices(words, init);
      var before, after := PossibleIndices(words, init), PossibleIndices(words, designs);
      var last := if Possible(words, designs[n]) then {n} else {};
      forall x | x in after
        ensures x in before + last
      {
        if x < n {
          assert designs[x] == init[x];
        }
      }
      assert after == before + last;
      assert n !in before;
    }
  }

  /** The set of the patterns. */
  function Patterns(towels: seq<string>): (r: set<string>)
    ensures forall t :: t in r <==> t in towels
  {
    set t | t in towels
  }

  /** The `solve` loop that inserts every towel into a new trie. */
  method BuildTrie(towels: seq<string>) returns (trie: Trie)
    ensures fresh(trie) && trie.Valid() && trie.words == Patterns(towels)
  {
    trie := new Trie();
    for k := 0 to |towels|
      invariant trie.Valid() && trie.words == Patterns(towels[..k])
      invariant fresh(trie)
    {
      assert towels[..k + 1] == towels[..k] + [towels[k]];
      trie.Insert(towels[k]);
    }
    assert towels[..|towels|] == towels;
  }

  /** `designs.iter().map(|design| is_design_possible(..) as u32).sum()`. */
  method CountPossible(trie: Trie, designs: seq<string>) returns (count: nat)
    requires trie.Valid()
    ensures count == PossibleCount(trie.words, designs)
  {
    count := 0;
    for k := 0 to |designs|
      invariant count == PossibleCount(trie.words, designs[..k])
    {
      var possible := IsDesignPossible(trie, designs[k]);
      assert designs[..k + 1][..k] == designs[..k];
      if possible {
        count := count + 1;
      }
    }
    assert designs[..|designs|] == designs;
  }

  /** `solve`: the number of designs that the towels can make. */
  method Solve(input: string) returns (r: Result<nat, ParseError>)
    ensures ParseInput(input).Err? ==> r == Err(NoBlankLine)
    ensures ParseInput(input).Ok? ==> var (towels, designs) := ParseInput(input).value;
      r == Ok(PossibleCount(Patterns(towels), designs))
  {
    var parsed := ParseInput(input);
    if parsed.Err? {
      return Err(parsed.error);
    }
    var (towels, designs) := parsed.value;
    var trie := BuildTrie(towels);
    var count := CountPossible(trie, designs);
    return Ok(count);
  }
}

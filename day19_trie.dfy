// The day 19 towel trie. `TrieNode` owns its children in a `HashMap`; the
// model keeps every node of one trie in an arena (`nodes`), where a child is
// the index of another node. The ghost `labels` give every node the text that
// spells the path to it, and `words` is the set of patterns the trie holds.
module Day19Trie {
  import opened Wrappers

  /** One `TrieNode`: its children by character and its `is_end` flag. */
  datatype Node = Node(children: map<char, nat>, isEnd: bool)

  /** Every child index names a node of the arena. */
  ghost predicate WellFormed(nodes: seq<Node>)
  {
    forall k, ch :: 0 <= k < |nodes| && ch in nodes[k].children ==> nodes[k].children[ch] < |nodes|
  }

  /** Follow `path` from node `k`, one character at a time; `None` once a
      character has no child. */
  function Walk(nodes: seq<Node>, k: nat, path: string): (r: Option<nat>)
    requires WellFormed(nodes) && k < |nodes|
    ensures r.Some? ==> r.value < |nodes|
    ensures path == [] ==> r == Some(k)
    decreases |path|
  {
    if path == [] then Some(k)
    else if path[0] in nodes[k].children then Walk(nodes, nodes[k].children[path[0]], path[1..])
    else None
  }

  /** `path` leads from the root to a node marked `is_end`. */
  predicate Marked(nodes: seq<Node>, path: string)
    requires WellFormed(nodes) && |nodes| > 0
  {
    var r := Walk(nodes, 0, path);
    r.Some? && nodes[r.value].isEnd
  }

  /** Walking a concatenation is walking its two parts in turn. */
  lemma {:induction false} WalkConcat(nodes: seq<Node>, k: nat, a: string, b: string)
    requires WellFormed(nodes) && k < |nodes|
    ensures Walk(nodes, k, a + b) == (if Walk(nodes, k, a).Some? then Walk(nodes, Walk(nodes, k, a).value, b) else None)
    decreases |a|
  {
    if a != [] {
      assert (a + b)[0] == a[0] && (a + b)[1..] == a[1..] + b;
      if a[0] in nodes[k].children {
        WalkConcat(nodes, nodes[k].children[a[0]], a[1..], b);
      }
    } else {
      assert a + b == b;
    }
  }

  /** One character past a walk. */
  lemma WalkStep(nodes: seq<Node>, k: nat, a: string, ch: char)
    requires WellFormed(nodes) && k < |nodes|
    ensures Walk(nodes, k, a + [ch]) ==
      (if Walk(nodes, k, a).Some? && ch in nodes[Walk(nodes, k, a).value].children
       then Some(nodes[Walk(nodes, k, a).value].children[ch]) else None)
  {
    WalkConcat(nodes, k, a, [ch]);
  }

  /** `big` keeps every node and every edge of `small`. */
  ghost predicate Extends(small: seq<Node>, big: seq<Node>)
  {
    |small| <= |big| &&
    forall k, ch :: 0 <= k < |small| && ch in small[k].children ==>
      ch in big[k].children && big[k].children[ch] == small[k].children[ch]
  }

  /** A walk that exists in a trie exists, unchanged, in every extension. */
  lemma {:induction false} WalkExtends(small: seq<Node>, big: seq<Node>, k: nat, path: string)
    requires WellFormed(small) && WellFormed(big) && Extends(small, big) && k < |small|
    requires Walk(small, k, path).Some?
    ensures Walk(big, k, path) == Walk(small, k, path)
    decreases |path|
  {
    if path != [] {
      WalkExtends(small, big, small[k].children[path[0]], path[1..]);
    }
  }

  /** Walks read only the children, never the flags. */
  lemma {:induction false} WalkIgnoresFlags(a: seq<Node>, b: seq<Node>, k: nat, path: string)
    requires WellFormed(a) && k < |a| && |a| == |b|
    requires forall i :: 0 <= i < |a| ==> a[i].children == b[i].children
    ensures WellFormed(b) && Walk(a, k, path) == Walk(b, k, path)
    decreases |path|
  {
    assert WellFormed(b) by {
      forall i, ch | 0 <= i < |b| && ch in b[i].children
        ensures b[i].children[ch] < |b|
      {
        assert ch in a[i].children;
      }
    }
    if path != [] && path[0] in a[k].children {
      WalkIgnoresFlags(a, b, a[k].children[path[0]], path[1..]);
    }
  }

  /** The root's label is empty and each edge extends its node's label by
      the edge's character. */
  ghost predicate Labelled(nodes: seq<Node>, labels: seq<string>)
  {
    |labels| == |nodes| > 0 && labels[0] == [] &&
    forall k, ch :: 0 <= k < |nodes| && ch in nodes[k].children ==>
      nodes[k].children[ch] < |nodes| && labels[nodes[k].children[ch]] == labels[k] + [ch]
  }

  /** A walk spells the label of the node where it ends: no two paths meet. */
  lemma {:induction false} WalkLabel(nodes: seq<Node>, labels: seq<string>, k: nat, path: string)
    requires Labelled(nodes, labels) && WellFormed(nodes) && k < |nodes|
    requires Walk(nodes, k, path).Some?
    ensures labels[Walk(nodes, k, path).value] == labels[k] + path
    decreases |path|
  {
    if path != [] {
      var next := nodes[k].children[path[0]];
      WalkLabel(nodes, labels, next, path[1..]);
      assert labels[k] + path == labels[k] + [path[0]] + path[1..];
    }
  }

  /** Every node is reached from the root by its label. */
  ghost predicate Reachable(nodes: seq<Node>, labels: seq<string>)
    requires WellFormed(nodes) && |labels| == |nodes| > 0
  {
    forall k :: 0 <= k < |nodes| ==> Walk(nodes, 0, labels[k]) == Some(k)
  }

  /** The structural invariant of the arena. */
  ghost predicate Inv(nodes: seq<Node>, labels: seq<string>)
  {
    WellFormed(nodes) && Labelled(nodes, labels) && Reachable(nodes, labels)
  }

  /** `big` extends `small`, keeps its flags and adds only unflagged nodes. */
  ghost predicate Grown(small: seq<Node>, big: seq<Node>)
  {
    Extends(small, big) &&
    (forall k :: 0 <= k < |small| ==> big[k].isEnd == small[k].isEnd) &&
    (forall k :: |small| <= k < |big| ==> !big[k].isEnd)
  }

  lemma GrownTrans(a: seq<Node>, b: seq<Node>, c: seq<Node>)
    requires Grown(a, b) && Grown(b, c)
    ensures Grown(a, c)
  {
  }

  /** The trie: an arena of nodes whose node 0 is the root. */
  class Trie {
    var nodes: seq<Node>
    ghost var labels: seq<string>
    /** The patterns inserted so far. */
    ghost var words: set<string>

    ghost predicate Valid()
      reads this
    {
      Inv(nodes, labels) && forall p :: Marked(nodes, p) <==> p in words
    }

    /** `TrieNode::new`: a root without children or `is_end`. */
    constructor ()
      ensures Valid()
      ensures nodes == [Node(map[], false)]
      ensures words == {}
    {
      nodes := [Node(map[], false)];
      labels := [[]];
      words := {};
      new;
      forall p
        ensures !Marked(nodes, p)
      {
        EmptyTrieMarksNothing(p);
      }
    }

    /** `TrieNode::insert`: walk `pattern`, creating each missing child as a
        new node, and set `is_end` where the walk ends. The trie then holds
        exactly the patterns it held and `pattern`; no flag is cleared, no
        edge is lost, and inserting a held pattern changes nothing. */
    method Insert(pattern: string)
      requires Valid()
      modifies this
      ensures Valid()
      ensures words == old(words) + {pattern}
      ensures Extends(old(nodes), nodes)
      ensures forall k :: 0 <= k < |old(nodes)| && old(nodes)[k].isEnd ==> nodes[k].isEnd
      ensures Walk(nodes, 0, pattern).Some? && nodes[Walk(nodes, 0, pattern).value].isEnd
      ensures pattern in old(words) ==> nodes == old(nodes)
    {
      var node := 0;
      for i := 0 to |pattern|
        invariant Inv(nodes, labels) && Grown(old(nodes), nodes) && old(labels) <= labels
        invariant node < |nodes| && Walk(nodes, 0, pattern[..i]) == Some(node)
        invariant words == old(words)
        invariant pattern in old(words) ==> nodes == old(nodes) && labels == old(labels)
      {
        ghost var before := nodes;
        if pattern in old(words) {
          assert Marked(nodes, pattern);
          HeldPatternHasChild(nodes, node, pattern, i);
        }
        node := Child(node, pattern[i]);
        WalkGrown(before, nodes, pattern, i);
        GrownTrans(old(nodes), before, nodes);
      }
      assert pattern[..|pattern|] == pattern;
      ghost var walked := nodes;
      nodes := nodes[node := nodes[node].(isEnd := true)];
      words := words + {pattern};
      InsertFlag(old(nodes), old(labels), old(words), walked, labels, node, pattern);
    }

    /** `children.entry(ch).or_insert_with(TrieNode::new)`: the child of
        `node` by `ch`, created as a new unflagged node when missing. */
    method Child(node: nat, ch: char) returns (next: nat)
      requires Inv(nodes, labels) && node < |nodes|
      modifies this
      ensures Inv(nodes, labels) && Grown(old(nodes), nodes) && old(labels) <= labels
      ensures words == old(words)
      ensures ch in nodes[node].children && next == nodes[node].children[ch] && next < |nodes|
      ensures ch in old(nodes)[node].children ==> nodes == old(nodes) && labels == old(labels)
    {
      if ch !in nodes[node].children {
        var child := |nodes|;
        ghost var before := nodes;
        nodes := nodes[node := nodes[node].(children := nodes[node].children[ch := child])] + [Node(map[], false)];
        labels := labels + [labels[node] + [ch]];
        AddedChildReachable(before, labels, node, ch);
      }
      next := nodes[node].children[ch];
    }
  }

  /** Adding an unflagged child keeps the arena's invariant. */
  lemma AddedChildReachable(before: seq<Node>, labels: seq<string>, node: nat, ch: char)
    requires |labels| == |before| + 1 && node < |before| && labels[|before|] == labels[node] + [ch]
    requires Inv(before, labels[..|before|]) && ch !in before[node].children
    ensures var after := before[node := before[node].(children := before[node].children[ch := |before|])] + [Node(map[], false)];
      Inv(after, labels) && Grown(before, after)
  {
    var child := |before|;
    var after := before[node := before[node].(children := before[node].children[ch := child])] + [Node(map[], false)];
    assert WellFormed(after);
    assert Extends(before, after);
    assert Labelled(after, labels);
    forall k | 0 <= k < |after|
      ensures Walk(after, 0, labels[k]) == Some(k)
    {
      if k < child {
        assert labels[k] == labels[..|before|][k];
        WalkExtends(before, after, 0, labels[k]);
      } else {
        assert labels[node] == labels[..|before|][node];
        WalkExtends(before, after, 0, labels[node]);
        WalkStep(after, 0, labels[node], ch);
      }
    }
  }

  /** One step of `Insert`'s walk, carried over the grown arena. */
  lemma WalkGrown(before: seq<Node>, after: seq<Node>, pattern: string, i: nat)
    requires WellFormed(before) && WellFormed(after) && Grown(before, after) && i < |pattern|
    requires |before| > 0 && Walk(before, 0, pattern[..i]).Some?
    requires pattern[i] in after[Walk(before, 0, pattern[..i]).value].children
    ensures Walk(after, 0, pattern[..i + 1]) == Some(after[Walk(before, 0, pattern[..i]).value].children[pattern[i]])
  {
    assert pattern[..i + 1] == pattern[..i] + [pattern[i]];
    WalkExtends(before, after, 0, pattern[..i]);
    WalkStep(after, 0, pattern[..i], pattern[i]);
  }

  /** The last line of `insert`: flagging the end of the walk makes the
      set of marked paths the old words and `pattern`. */
  lemma InsertFlag(before: seq<Node>, oldLabels: seq<string>, oldWords: set<string>,
                   walked: seq<Node>, labels: seq<string>, node: nat, pattern: string)
    requires Inv(before, oldLabels) && forall q :: Marked(before, q) <==> q in oldWords
    requires Inv(walked, labels) && Grown(before, walked) && oldLabels <= labels
    requires node < |walked| && Walk(walked, 0, pattern) == Some(node)
    ensures var marked := walked[node := walked[node].(isEnd := true)];
      Inv(marked, labels) && forall q :: Marked(marked, q) <==> q in oldWords + {pattern}
  {
    var marked := walked[node := walked[node].(isEnd := true)];
    forall p
      ensures WellFormed(marked) && Walk(marked, 0, p) == Walk(walked, 0, p)
    {
      WalkIgnoresFlags(walked, marked, 0, p);
    }
    assert Inv(marked, labels);
    forall p
      ensures Marked(marked, p) <==> p in oldWords + {pattern}
    {
      InsertMarks(before, oldLabels, oldWords, walked, marked, labels, node, pattern, p);
    }
  }

  /** A root alone holds no pattern, not even the empty one. */
  lemma EmptyTrieMarksNothing(p: string)
    ensures !Marked([Node(map[], false)], p)
  {
  }

  /** A pattern the trie holds has an edge at every step of its walk. */
  lemma HeldPatternHasChild(nodes: seq<Node>, node: nat, pattern: string, i: nat)
    requires WellFormed(nodes) && |nodes| > 0 && i < |pattern|
    requires Walk(nodes, 0, pattern[..i]) == Some(node)
    requires Walk(nodes, 0, pattern).Some?
    ensures pattern[i] in nodes[node].children
  {
    assert pattern == pattern[..i] + pattern[i..];
    WalkConcat(nodes, 0, pattern[..i], pattern[i..]);
  }

  /** The word-set step of `Insert`: after the walk (`walked`) and the flag
      (`marked`), the marked paths are the old words and `pattern`. */
  lemma InsertMarks(before: seq<Node>, oldLabels: seq<string>, oldWords: set<string>,
                    walked: seq<Node>, marked: seq<Node>, labels: seq<string>,
                    node: nat, pattern: string, p: string)
    requires WellFormed(before) && Labelled(before, oldLabels) && Reachable(before, oldLabels)
    requires forall q :: Marked(before, q) <==> q in oldWords
    requires WellFormed(walked) && Labelled(walked, labels) && oldLabels <= labels
    requires Extends(before, walked)
    requires forall k :: 0 <= k < |before| ==> walked[k].isEnd == before[k].isEnd
    requires forall k :: |before| <= k < |walked| ==> !walked[k].isEnd
    requires node < |walked| && Walk(walked, 0, pattern) == Some(node)
    requires marked == walked[node := walked[node].(isEnd := true)]
    requires WellFormed(marked) && Walk(marked, 0, p) == Walk(walked, 0, p)
    ensures Marked(marked, p) <==> p in oldWords + {pattern}
  {
    if p in oldWords {
      assert Marked(before, p);
      InsertKeeps(before, walked, marked, node, p);
    }
    if Marked(marked, p) && p != pattern {
      InsertOnlyAdds(before, oldLabels, walked, marked, labels, node, pattern, p);
      assert Marked(before, p);
    }
  }

  /** A path marked before the insertion stays marked. */
  lemma InsertKeeps(before: seq<Node>, walked: seq<Node>, marked: seq<Node>, node: nat, p: string)
    requires WellFormed(before) && |before| > 0 && WellFormed(walked) && Extends(before, walked)
    requires forall k :: 0 <= k < |before| ==> walked[k].isEnd == before[k].isEnd
    requires node < |walked| && marked == walked[node := walked[node].(isEnd := true)]
    requires WellFormed(marked) && Walk(marked, 0, p) == Walk(walked, 0, p)
    requires Marked(before, p)
    ensures Marked(marked, p)
  {
    WalkExtends(before, walked, 0, p);
    var k := Walk(before, 0, p).value;
    assert walked[k].isEnd;
  }

  /** A path marked after the insertion, other than the pattern, ends at a
      node that was marked before and that its label reaches. */
  lemma InsertOnlyAdds(before: seq<Node>, oldLabels: seq<string>,
                       walked: seq<Node>, marked: seq<Node>, labels: seq<string>,
                       node: nat, pattern: string, p: string)
    requires WellFormed(before) && Labelled(before, oldLabels) && Reachable(before, oldLabels)
    requires WellFormed(walked) && Labelled(walked, labels) && oldLabels <= labels
    requires forall k :: 0 <= k < |before| ==> walked[k].isEnd == before[k].isEnd
    requires forall k :: |before| <= k < |walked| ==> !walked[k].isEnd
    requires node < |walked| && Walk(walked, 0, pattern) == Some(node)
    requires marked == walked[node := walked[node].(isEnd := true)]
    requires WellFormed(marked) && Walk(marked, 0, p) == Walk(walked, 0, p)
    requires Marked(marked, p) && p != pattern
    ensures Marked(before, p)
  {
    var k := Walk(walked, 0, p).value;
    WalkLabel(walked, labels, 0, p);
    WalkLabel(walked, labels, 0, pattern);
    assert labels[k] == p && labels[node] == pattern;
    assert walked[k].isEnd;
    assert k < |before|;
    assert oldLabels[k] == labels[k];
    assert Walk(before, 0, oldLabels[k]) == Some(k);
  }
}

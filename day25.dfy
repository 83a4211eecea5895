// Day 25: Code Chronicle. Schematics of locks and keys become column
// heights, and a lock and a key fit when no column overflows.
//
// The source is TypeScript. A row wider than five columns makes `heights[i]++`
// grow the array with `NaN` (the increment of `undefined`); `Heights.wide`
// records that, because a `NaN` column makes every comparison false.
module Day25 {
  import opened Wrappers
  import opened Text

  const FullHeight: nat := 7
  const Width: nat := 5

  datatype Kind = Key | Lock

  /** The five column counts, and whether a '#' lay past the fifth column. */
  datatype Heights = Heights(columns: seq<nat>, wide: bool)

  datatype Schematic = Schematic(kind: Kind, heights: Heights)

  datatype SchematicError = InvalidSchematic

  /** A character that is neither '#' nor '.': the source throws on it. */
  predicate BadRow(line: string)
  {
    exists j :: 0 <= j < |line| && line[j] != '#' && line[j] != '.'
  }

  /** A '#' past the fifth column. */
  predicate WideRow(line: string)
  {
    exists j :: Width <= j < |line| && line[j] == '#'
  }

  predicate HasBadRow(lines: seq<string>)
  {
    exists l :: 0 <= l < |lines| && BadRow(lines[l])
  }

  predicate HasWideRow(lines: seq<string>)
  {
    exists l :: 0 <= l < |lines| && WideRow(lines[l])
  }

  /** How many of the lines hold a '#' in column `i`. */
  function ColumnCount(lines: seq<string>, i: nat): (r: nat)
    ensures r <= |lines|
  {
    if |lines| == 0 then 0
    else
      var last := lines[|lines| - 1];
      ColumnCount(lines[..|lines| - 1], i) + (if i < |last| && last[i] == '#' then 1 else 0)
  }

  /** What `convertSchematicToPinHeights` computes: an error for a stray
      character; otherwise a key when the first line is "#####", else a lock,
      with the '#' count of each of the five columns. */
  function PinHeights(schematic: string): (r: Result<Schematic, SchematicError>)
    ensures r.Err? <==> HasBadRow(Split(schematic, '\n'))
    ensures r.Ok? ==> (r.value.kind == Key <==> Split(schematic, '\n')[0] == "#####")
    ensures r.Ok? ==> |r.value.heights.columns| == Width
  {
    var lines := Split(schematic, '\n');
    if HasBadRow(lines) then Err(InvalidSchematic)
    else
      var columns := seq(Width, i requires 0 <= i < Width => ColumnCount(lines, i));
      Ok(Schematic(if lines[0] == "#####" then Key else Lock, Heights(columns, HasWideRow(lines))))
  }

  /** A schematic's columns count at most one '#' per line. */
  lemma HeightsBounded(schematic: string)
    requires PinHeights(schematic).Ok?
    ensures forall i :: 0 <= i < Width ==>
      PinHeights(schematic).value.heights.columns[i] <= |Split(schematic, '\n')|
  {
  }

  /** Taking one more line adds its '#'s to the counts and its flaws to the
      flags. */
  lemma LinesStep(lines: seq<string>, l: nat)
    requires l < |lines|
    ensures forall i: nat :: (ColumnCount(lines[..l + 1], i)
      == ColumnCount(lines[..l], i) + (if i < |lines[l]| && lines[l][i] == '#' then 1 else 0))
    ensures HasBadRow(lines[..l + 1]) <==> HasBadRow(lines[..l]) || BadRow(lines[l])
    ensures HasWideRow(lines[..l + 1]) <==> HasWideRow(lines[..l]) || WideRow(lines[l])
  {
    assert lines[..l + 1][..l] == lines[..l];
    assert lines[..l + 1][l] == lines[l];
  }

  /** The inner loop of `convertSchematicToPinHeights` over one line. */
  method CountRow(heights: array<nat>, line: string, wide: bool) returns (ok: bool, nowWide: bool)
    requires heights.Length == Width
    modifies heights
    ensures ok <==> !BadRow(line)
    ensures ok ==> forall c :: 0 <= c < Width ==>
      heights[c] == old(heights[c]) + (if c < |line| && line[c] == '#' then 1 else 0)
    ensures ok ==> (nowWide <==> wide || WideRow(line))
  {
    nowWide := wide;
    for i := 0 to |line|
      invariant forall j :: 0 <= j < i ==> line[j] == '#' || line[j] == '.'
      invariant forall c :: 0 <= c < Width ==>
        heights[c] == old(heights[c]) + (if c < i && line[c] == '#' then 1 else 0)
      invariant nowWide <==> wide || exists j :: Width <= j < i && line[j] == '#'
    {
      if line[i] == '#' {
        if i < Width {
          heights[i] := heights[i] + 1;
        } else {
          nowWide := true;
        }
      } else if line[i] != '.' {
        return false, nowWide;
      }
    }
    return true, nowWide;
  }

  /** `convertSchematicToPinHeights`. */
  method ConvertSchematic(schematic: string) returns (r: Result<Schematic, SchematicError>)
    ensures r == PinHeights(schematic)
  {
    var heights := new nat[Width](_ => 0);
    var wide := false;
    var lines := Split(schematic, '\n');
    for l := 0 to |lines|
      invariant forall c :: 0 <= c < Width ==> heights[c] == ColumnCount(lines[..l], c)
      invariant wide <==> HasWideRow(lines[..l])
      invariant !HasBadRow(lines[..l])
    {
      LinesStep(lines, l);
      var ok;
      ok, wide := CountRow(heights, lines[l], wide);
      if !ok {
        return Err(InvalidSchematic);
      }
    }
    assert lines[..|lines|] == lines;
    var columns := heights[..];
    assert columns == seq(Width, i requires 0 <= i < Width => ColumnCount(lines, i));
    var kind := if lines[0] == "#####" then Key else Lock;
    return Ok(Schematic(kind, Heights(columns, wide)));
  }

  // ---------------------------------------------------------------------------
  // Fitting.

  /** Every column pair adds up to at most the full height. */
  function ColumnsFit(lock: seq<nat>, key: seq<nat>, i: nat): (r: bool)
    requires i <= |lock| <= |key|
    ensures r <==> forall j :: i <= j < |lock| ==> lock[j] + key[j] <= FullHeight
    decreases |lock| - i
  {
    i == |lock| || (lock[i] + key[i] <= FullHeight && ColumnsFit(lock, key, i + 1))
  }

  /** `canFit`: `lock.every((height, i) => height + key[i] <= 7)`. A `NaN`
      column of the lock fails, so a wide lock fits no key; a key's columns
      past the lock's are never read. */
  function CanFit(lock: Heights, key: Heights): (r: bool)
    requires |lock.columns| <= |key.columns|
    ensures r <==> !lock.wide && forall i :: 0 <= i < |lock.columns| ==> lock.columns[i] + key.columns[i] <= FullHeight
  {
    !lock.wide && ColumnsFit(lock.columns, key.columns, 0)
  }

  /** Without wide rows, a lock fits a key exactly when the key, as a lock,
      fits the lock. */
  lemma CanFitSymmetric(a: Heights, b: Heights)
    requires |a.columns| == |b.columns| && !a.wide && !b.wide
    ensures CanFit(a, b) == CanFit(b, a)
  {
  }

  /** The puzzle's first lock against two of its keys; each count includes
      the full row. The first key overlaps in the last column. */
  lemma ExampleFits()
    ensures !CanFit(Heights([1, 6, 4, 5, 4], false), Heights([6, 1, 3, 2, 4], false))
    ensures CanFit(Heights([1, 6, 4, 5, 4], false), Heights([4, 1, 3, 1, 2], false))
    ensures !CanFit(Heights([1, 6, 4, 5, 4], true), Heights([4, 1, 3, 1, 2], false))
  {
  }

  predicate FiveColumns(hs: seq<Heights>)
  {
    forall i :: 0 <= i < |hs| ==> |hs[i].columns| == Width
  }

  /** How many of `keys` fit `lock`. */
  function KeysFitting(lock: Heights, keys: seq<Heights>): (r: nat)
    requires |lock.columns| == Width && FiveColumns(keys)
    ensures r <= |keys|
  {
    if |keys| == 0 then 0
    else KeysFitting(lock, keys[..|keys| - 1]) + (if CanFit(lock, keys[|keys| - 1]) then 1 else 0)
  }

  /** How many lock and key pairs fit. */
  function FitCount(locks: seq<Heights>, keys: seq<Heights>): (r: nat)
    requires FiveColumns(locks) && FiveColumns(keys)
    ensures r <= |locks| * |keys|
  {
    if |locks| == 0 then 0
    else
      var r := FitCount(locks[..|locks| - 1], keys) + KeysFitting(locks[|locks| - 1], keys);
      assert |locks| * |keys| == (|locks| - 1) * |keys| + |keys|;
      r
  }

  /** When every pair fits the count is the number of pairs. */
  lemma {:induction false} AllFit(locks: seq<Heights>, keys: seq<Heights>)
    requires FiveColumns(locks) && FiveColumns(keys)
    requires forall i, j :: 0 <= i < |locks| && 0 <= j < |keys| ==> CanFit(locks[i], keys[j])
    ensures FitCount(locks, keys) == |locks| * |keys|
  {
    if |locks| > 0 {
      var n := |locks| - 1;
      var prefix := locks[..n];
      assert forall i :: 0 <= i < n ==> prefix[i] == locks[i];
      AllFit(prefix, keys);
      AllKeysFit(locks[n], keys);
      assert |locks| * |keys| == n * |keys| + |keys|;
    }
  }

  /** When no pair fits the count is zero. */
  lemma {:induction false} NoneFit(locks: seq<Heights>, keys: seq<Heights>)
    requires FiveColumns(locks) && FiveColumns(keys)
    requires forall i, j :: 0 <= i < |locks| && 0 <= j < |keys| ==> !CanFit(locks[i], keys[j])
    ensures FitCount(locks, keys) == 0
  {
    if |locks| > 0 {
      var n := |locks| - 1;
      var prefix := locks[..n];
      assert forall i :: 0 <= i < n ==> prefix[i] == locks[i];
      NoneFit(prefix, keys);
      NoKeysFit(locks[n], keys);
    }
  }

  lemma {:induction false} AllKeysFit(lock: Heights, keys: seq<Heights>)
    requires |lock.columns| == Width && FiveColumns(keys)
    requires forall j :: 0 <= j < |keys| ==> CanFit(lock, keys[j])
    ensures KeysFitting(lock, keys) == |keys|
  {
    if |keys| > 0 {
      var prefix := keys[..|keys| - 1];
      assert forall j :: 0 <= j < |prefix| ==> prefix[j] == keys[j];
      AllKeysFit(lock, prefix);
    }
  }

  lemma {:induction false} NoKeysFit(lock: Heights, keys: seq<Heights>)
    requires |lock.columns| == Width && FiveColumns(keys)
    requires forall j :: 0 <= j < |keys| ==> !CanFit(lock, keys[j])
    ensures KeysFitting(lock, keys) == 0
  {
    if |keys| > 0 {
      var prefix := keys[..|keys| - 1];
      assert forall j :: 0 <= j < |prefix| ==> prefix[j] == keys[j];
      NoKeysFit(lock, prefix);
    }
  }

  /** The nested loops of `solve`. */
  method CountFits(locks: seq<Heights>, keys: seq<Heights>) returns (result: nat)
    requires FiveColumns(locks) && FiveColumns(keys)
    ensures result == FitCount(locks, keys)
  {
    result := 0;
    for i := 0 to |locks|
      invariant result == FitCount(locks[..i], keys)
    {
      assert locks[..i + 1][..i] == locks[..i];
      for j := 0 to |keys|
        invariant result == FitCount(locks[..i], keys) + KeysFitting(locks[i], keys[..j])
      {
        assert keys[..j + 1][..j] == keys[..j];
        if CanFit(locks[i], keys[j]) {
          result := result + 1;
        }
      }
      assert keys[..|keys|] == keys;
    }
    assert locks[..|locks|] == locks;
  }

  // ---------------------------------------------------------------------------
  // Input.

  /** `split("\n\n")`: the pieces between blank lines. */
  function SplitBlocks(s: string): (r: seq<string>)
    ensures |r| >= 1
    decreases |s|
  {
    match SplitAtBlank(s)
    case None => [s]
    case Some((head, tail)) => [head] + SplitBlocks(tail)
  }

  /** The blocks joined with "\n\n" give the text back. */
  function JoinBlocks(blocks: seq<string>): string
  {
    if |blocks| <= 1 then (if blocks == [] then [] else blocks[0])
    else blocks[0] + "\n\n" + JoinBlocks(blocks[1..])
  }

  lemma {:induction false} JoinSplitBlocks(s: string)
    ensures JoinBlocks(SplitBlocks(s)) == s
    decreases |s|
  {
    match SplitAtBlank(s)
    case None =>
    case Some((head, tail)) =>
      JoinSplitBlocks(tail);
      var rest := SplitBlocks(tail);
      assert SplitBlocks(s) == [head] + rest;
      assert ([head] + rest)[1..] == rest;
  }

  /** The schematics sorted by kind, in input order; the first invalid one is
      an error. */
  function Classify(blocks: seq<string>): (r: Result<(seq<Heights>, seq<Heights>), SchematicError>)
    ensures r.Err? <==> exists b :: 0 <= b < |blocks| && PinHeights(blocks[b]).Err?
    ensures r.Ok? ==> |r.value.0| + |r.value.1| == |blocks|
    ensures r.Ok? ==> FiveColumns(r.value.0) && FiveColumns(r.value.1)
  {
    if |blocks| == 0 then Ok(([], []))
    else
      var last := blocks[|blocks| - 1];
      var prefix := blocks[..|blocks| - 1];
      assert forall b :: 0 <= b < |prefix| ==> prefix[b] == blocks[b];
      match Classify(prefix)
      case Err(e) => Err(e)
      case Ok((locks, keys)) =>
        match PinHeights(last)
        case Err(e) => Err(e)
        case Ok(s) =>
          if s.kind == Key then Ok((locks, keys + [s.heights])) else Ok((locks + [s.heights], keys))
  }

  /** One more valid schematic lands in its pile. */
  lemma ClassifyStep(blocks: seq<string>, b: nat, locks: seq<Heights>, keys: seq<Heights>)
    requires b < |blocks| && Classify(blocks[..b]) == Ok((locks, keys)) && PinHeights(blocks[b]).Ok?
    ensures var s := PinHeights(blocks[b]).value;
      Classify(blocks[..b + 1])
      == if s.kind == Key then Ok((locks, keys + [s.heights])) else Ok((locks + [s.heights], keys))
  {
    assert blocks[..b + 1][..b] == blocks[..b];
    assert blocks[..b + 1][b] == blocks[b];
  }

  /** Any invalid schematic makes the whole input invalid. */
  lemma ClassifyError(blocks: seq<string>, b: nat)
    requires b < |blocks| && PinHeights(blocks[b]).Err?
    ensures Classify(blocks) == Err(InvalidSchematic)
  {
    var c := Classify(blocks);
    assert c.Err?;
    assert c.error == InvalidSchematic;
  }

  /** `parseInput`: trim, split at blank lines, convert each schematic and
      push its heights to the keys or the locks. */
  method ParseInput(input: string) returns (r: Result<(seq<Heights>, seq<Heights>), SchematicError>)
    ensures r == Classify(SplitBlocks(Trim(input)))
  {
    var blocks := SplitBlocks(Trim(input));
    r := ClassifyAll(blocks);
  }

  /** The loop of `parseInput` over the blocks. */
  method ClassifyAll(blocks: seq<string>) returns (r: Result<(seq<Heights>, seq<Heights>), SchematicError>)
    ensures r == Classify(blocks)
  {
    var keys: seq<Heights> := [];
    var locks: seq<Heights> := [];
    for b := 0 to |blocks|
      invariant Classify(blocks[..b]) == Ok((locks, keys))
    {
      var s := ConvertSchematic(blocks[b]);
      if s.Err? {
        ClassifyError(blocks, b);
        return Err(s.error);
      }
      ClassifyStep(blocks, b, locks, keys);
      if s.value.kind == Key {
        keys := keys + [s.value.heights];
      } else {
        locks := locks + [s.value.heights];
      }
    }
    assert blocks[..|blocks|] == blocks;
    return Ok((locks, keys));
  }

  /** `solve`: the number of fitting lock and key pairs, at most the number
      of pairs; an invalid schematic is an error. */
  method Solve(input: string) returns (r: Result<nat, SchematicError>)
    ensures var c := Classify(SplitBlocks(Trim(input)));
      (r.Err? <==> c.Err?) && (r.Ok? ==> r.value == FitCount(c.value.0, c.value.1))
    ensures r.Ok? ==> var c := Classify(SplitBlocks(Trim(input))).value; r.value <= |c.0| * |c.1|
  {
    var parsed := ParseInput(input);
    if parsed.Err? {
      return Err(parsed.error);
    }
    var (locks, keys) := parsed.value;
    var count := CountFits(locks, keys);
    return Ok(count);
  }
}

// Day 9: a disk map. The digits of the input alternate between file sizes
// and free-space sizes; files are numbered in order. `compress` moves file
// items from the right into free items on the left with two pointers, and
// the checksum weights each file item's id by its item index.
module Day09 {
  import opened Wrappers
  import opened Text

  datatype Item = File(id: nat, size: nat) | FreeSpace(size: nat)

  // ---------------------------------------------------------------- parsing

  /** The item for the digit at index i: even indices are files, numbered
      i / 2, odd ones are free space. */
  function ItemAt(i: nat, c: char): Item
    requires IsDigit(c)
  {
    if i % 2 == 0 then File(i / 2, DigitValue(c)) else FreeSpace(DigitValue(c))
  }

  /** `parse_input`: `to_digit(10).unwrap()` panics on any other character. */
  function ParseDisk(input: string): (r: Option<seq<Item>>)
    ensures r.Some? <==> AllDigits(Trim(input))
    ensures r.Some? ==> |r.value| == |Trim(input)|
  {
    var t := Trim(input);
    if AllDigits(t) then Some(seq(|t|, i requires 0 <= i < |t| => ItemAt(i, t[i]))) else None
  }

  /** The layout `parse_input` produces: files and free space alternate,
      starting with a file, files are numbered 0, 1, 2, ... and every size is
      a single digit. */
  ghost predicate WellFormed(disk: seq<Item>)
  {
    forall i :: 0 <= i < |disk| ==> disk[i].size < 10 && (if i % 2 == 0 then disk[i] == File(i / 2, disk[i].size) else disk[i].FreeSpace?)
  }

  /** The disk map of a disk: one digit per item. */
  function DiskMap(disk: seq<Item>): (s: string)
    requires forall i :: 0 <= i < |disk| ==> disk[i].size < 10
    ensures |s| == |disk| && AllDigits(s)
    ensures forall i :: 0 <= i < |disk| ==> DigitValue(s[i]) == disk[i].size
  {
    seq(|disk|, i requires 0 <= i < |disk| => DigitChar(disk[i].size))
  }

  /** Every disk of the parsed layout is read back from its disk map. */
  lemma ParseDiskMap(disk: seq<Item>)
    requires WellFormed(disk)
    ensures disk != [] ==> ParseDisk(DiskMap(disk)) == Some(disk)
  {
    var s := DiskMap(disk);
    if disk != [] {
      DigitsTrimmed(s);
      var r := ParseDisk(s);
      assert r.Some?;
      assert forall i :: 0 <= i < |disk| ==> r.value[i] == disk[i];
      assert r.value == disk;
    }
  }

  /** Every parse has the layout. */
  lemma ParsedWellFormed(input: string)
    requires ParseDisk(input).Some?
    ensures WellFormed(ParseDisk(input).value)
  {
  }

  /** The unit test `parse_trivial`. */
  lemma ParseExample()
    ensures ParseDisk("12345") == Some([File(0, 1), FreeSpace(2), File(1, 3), FreeSpace(4), File(2, 5)])
  {
    var t := "12345";
    DigitsTrimmed(t);
    assert DigitValue('1') == 1 && DigitValue('2') == 2 && DigitValue('3') == 3 && DigitValue('4') == 4 && DigitValue('5') == 5;
    var r := ParseDisk(t);
    assert r.value[0] == ItemAt(0, '1') && r.value[1] == ItemAt(1, '2') && r.value[2] == ItemAt(2, '3');
    assert r.value[3] == ItemAt(3, '4') && r.value[4] == ItemAt(4, '5');
    assert |r.value| == 5;
    assert r.value == [File(0, 1), FreeSpace(2), File(1, 3), FreeSpace(4), File(2, 5)];
  }

  // ---------------------------------------------------------------- expansion

  /** `str::repeat`. */
  function Repeat(s: string, n: nat): (r: string)
    ensures |r| == n * |s|
    ensures forall i :: 0 <= i < |r| ==> r[i] in s
  {
    if n == 0 then [] else s + Repeat(s, n - 1)
  }

  /** `stringify_id_expansion`: each file is its id written size times, each
      free item size dots, so every character is a digit or a dot and every
      block takes at least one character. */
  function Expand(disk: seq<Item>): (r: string)
    ensures forall i :: 0 <= i < |r| ==> r[i] == '.' || IsDigit(r[i])
    ensures |r| >= TotalSize(disk)
  {
    if disk == [] then []
    else Piece(disk[0]) + Expand(disk[1..])
  }

  function Piece(x: Item): (r: string)
    ensures forall i :: 0 <= i < |r| ==> r[i] == '.' || IsDigit(r[i])
    ensures |r| >= x.size
  {
    match x
    case File(id, size) =>
      var d := NatToString(id);
      assert size * |d| >= size * 1;
      Repeat(d, size)
    case FreeSpace(size) => Repeat(".", size)
  }

  function TotalSize(disk: seq<Item>): nat
  {
    if disk == [] then 0 else disk[0].size + TotalSize(disk[1..])
  }

  /** With single-digit ids every block is one character. */
  lemma {:induction false} ExpandLength(disk: seq<Item>)
    requires forall i :: 0 <= i < |disk| ==> disk[i].File? ==> disk[i].id < 10
    ensures |Expand(disk)| == TotalSize(disk)
  {
    if disk != [] {
      ExpandLength(disk[1..]);
      if disk[0].File? {
        assert |NatToString(disk[0].id)| == 1;
      }
    }
  }

  /** The first case of `stringify_id_expansion_cases`, "0..111....22222",
      written piece by piece. */
  lemma ExpandExample()
    ensures Expand([File(0, 1), FreeSpace(2), File(1, 3), FreeSpace(4), File(2, 5)]) == "0" + (".." + ("111" + ("...." + "22222")))
  {
    PieceExamples();
    var r4 := [File(2, 5)];
    ExpandCons(File(2, 5), []);
    assert [File(2, 5)] + [] == r4;
    var r3 := [FreeSpace(4)] + r4;
    ExpandCons(FreeSpace(4), r4);
    var r2 := [File(1, 3)] + r3;
    ExpandCons(File(1, 3), r3);
    var r1 := [FreeSpace(2)] + r2;
    ExpandCons(FreeSpace(2), r2);
    ExpandCons(File(0, 1), r1);
    assert [File(0, 1)] + r1 == [File(0, 1), FreeSpace(2), File(1, 3), FreeSpace(4), File(2, 5)];
  }

  lemma PieceExamples()
    ensures Piece(File(0, 1)) == "0" && Piece(FreeSpace(2)) == ".." && Piece(File(1, 3)) == "111"
    ensures Piece(FreeSpace(4)) == "...." && Piece(File(2, 5)) == "22222"
  {
    assert NatToString(0) == "0" && NatToString(1) == "1" && NatToString(2) == "2";
  }

  lemma ExpandCons(x: Item, rest: seq<Item>)
    ensures Expand([x] + rest) == Piece(x) + Expand(rest)
  {
    assert ([x] + rest)[1..] == rest;
  }

  // ---------------------------------------------------------------- compress

  function Share(x: Item, id: nat): nat
  {
    if x.File? && x.id == id then x.size else 0
  }

  /** The total size of the file items numbered id. */
  function FileSize(s: seq<Item>, id: nat): nat
  {
    if s == [] then 0 else FileSize(s[..|s| - 1], id) + Share(s[|s| - 1], id)
  }

  lemma {:induction false} FileSizeUpdate(s: seq<Item>, i: nat, x: Item, id: nat)
    requires i < |s|
    ensures FileSize(s[i := x], id) + Share(s[i], id) == FileSize(s, id) + Share(x, id)
  {
    var t := s[i := x];
    if i < |s| - 1 {
      FileSizeUpdate(s[..|s| - 1], i, x, id);
      assert t[..|t| - 1] == s[..|s| - 1][i := x];
    } else {
      assert t[..|t| - 1] == s[..|s| - 1];
    }
  }

  /** No file item comes after a free item. */
  ghost predicate Compacted(s: seq<Item>)
  {
    forall i, j :: 0 <= i < j < |s| && s[i].FreeSpace? ==> s[j].FreeSpace?
  }

  /** The two-pointer loop of `compress` from positions left and right:
      `left` skips files, `right` skips free space; a free item on the left
      takes the whole file on the right when it fits (the right slot becomes
      free space of the file's size) and otherwise takes as much of the file
      as it can hold, the rest staying on the right. */
  function CompressLoop(s: seq<Item>, left: nat, right: nat): (r: seq<Item>)
    requires right < |s|
    ensures |r| == |s|
    decreases right - left
  {
    if left >= right then s
    else if s[left].File? then CompressLoop(s, left + 1, right)
    else if s[right].FreeSpace? then CompressLoop(s, left, right - 1)
    else if s[left].size >= s[right].size then
      CompressLoop(s[left := File(s[right].id, s[right].size)][right := FreeSpace(s[right].size)], left + 1, right - 1)
    else
      CompressLoop(s[left := File(s[right].id, s[left].size)][right := File(s[right].id, s[right].size - s[left].size)], left + 1, right)
  }

  /** `compress` as a function: the loop from both ends; an empty disk panics
      on `len() - 1`. */
  function CompressDisk(disk: seq<Item>): (r: Option<seq<Item>>)
    ensures r.None? <==> disk == []
    ensures r.Some? ==> |r.value| == |disk|
  {
    if disk == [] then None else Some(CompressLoop(disk, 0, |disk| - 1))
  }

  /** The loop keeps the number of items and every id's total file size, and
      when every slot before `left` is a file and every slot after `right` is
      free space, it ends with no file after a free item. */
  lemma {:induction false} CompressLoopFacts(s: seq<Item>, left: nat, right: nat)
    requires left <= right + 1 && right < |s|
    requires forall k :: 0 <= k < left ==> s[k].File?
    requires forall k :: right < k < |s| ==> s[k].FreeSpace?
    ensures Compacted(CompressLoop(s, left, right))
    ensures forall id :: FileSize(CompressLoop(s, left, right), id) == FileSize(s, id)
    decreases right - left
  {
    if left >= right {
    } else if s[left].File? {
      CompressLoopFacts(s, left + 1, right);
    } else if s[right].FreeSpace? {
      CompressLoopFacts(s, left, right - 1);
    } else if s[left].size >= s[right].size {
      MovePreserves(s, left, right);
      CompressLoopFacts(s[left := File(s[right].id, s[right].size)][right := FreeSpace(s[right].size)], left + 1, right - 1);
    } else {
      SplitPreserves(s, left, right);
      CompressLoopFacts(s[left := File(s[right].id, s[left].size)][right := File(s[right].id, s[right].size - s[left].size)], left + 1, right);
    }
  }

  /** The result of `compress` has no file after a free item and keeps every
      id's total file size. */
  lemma CompressFacts(disk: seq<Item>)
    requires disk != []
    ensures Compacted(CompressDisk(disk).value)
    ensures forall id :: FileSize(CompressDisk(disk).value, id) == FileSize(disk, id)
  {
    CompressLoopFacts(disk, 0, |disk| - 1);
  }

  /** `compress`: copies the disk into a vector and runs the two-pointer loop
      on it in place. */
  method Compress(disk: seq<Item>) returns (r: Option<seq<Item>>)
    ensures r == CompressDisk(disk)
  {
    if |disk| == 0 {
      return None;
    }
    var a := new Item[|disk|](i requires 0 <= i < |disk| => disk[i]);
    assert a[..] == disk;
    var left, right := 0, a.Length - 1;
    while left < right
      invariant 0 <= left <= right + 1 && 0 <= right < a.Length
      invariant CompressLoop(a[..], left, right) == CompressLoop(disk, 0, |disk| - 1)
      decreases right - left
    {
      if a[left].File? {
        left := left + 1;
      } else if a[right].FreeSpace? {
        right := right - 1;
      } else {
        var available, fileSize, fileId := a[left].size, a[right].size, a[right].id;
        if available >= fileSize {
          a[left] := File(fileId, fileSize);
          a[right] := FreeSpace(fileSize);
          left, right := left + 1, right - 1;
        } else {
          a[left] := File(fileId, available);
          a[right] := File(fileId, fileSize - available);
          left := left + 1;
        }
      }
    }
    return Some(a[..]);
  }

  /** The unit test `compress_trivial` on the "12345" disk: the result keeps
      all five slots, the last one free space, where the test lists four. */
  method CompressTrivial() returns (r: Option<seq<Item>>)
    ensures r == Some([File(0, 1), File(2, 2), File(1, 3), File(2, 3), FreeSpace(3)])
    ensures r.value != [File(0, 1), File(2, 2), File(1, 3), File(2, 3)]
  {
    r := Compress([File(0, 1), FreeSpace(2), File(1, 3), FreeSpace(4), File(2, 5)]);
    CompressExample();
  }

  /** The loop on the "12345" disk, step by step. */
  lemma CompressExample()
    ensures CompressDisk([File(0, 1), FreeSpace(2), File(1, 3), FreeSpace(4), File(2, 5)])
         == Some([File(0, 1), File(2, 2), File(1, 3), File(2, 3), FreeSpace(3)])
  {
    var s0 := [File(0, 1), FreeSpace(2), File(1, 3), FreeSpace(4), File(2, 5)];
    var s1 := [File(0, 1), File(2, 2), File(1, 3), FreeSpace(4), File(2, 3)];
    var s2 := [File(0, 1), File(2, 2), File(1, 3), File(2, 3), FreeSpace(3)];
    assert s0[1 := File(2, 2)][4 := File(2, 3)] == s1;
    assert s1[3 := File(2, 3)][4 := FreeSpace(3)] == s2;
    assert CompressLoop(s2, 4, 3) == s2;
    assert CompressLoop(s1, 3, 4) == s2;
    assert CompressLoop(s1, 2, 4) == s2;
    assert CompressLoop(s0, 1, 4) == s2;
    assert CompressLoop(s0, 0, 4) == s2;
  }

  lemma MovePreserves(s: seq<Item>, l: nat, r: nat)
    requires l < r < |s| && s[l].FreeSpace? && s[r].File?
    ensures forall id :: FileSize(s[l := File(s[r].id, s[r].size)][r := FreeSpace(s[r].size)], id) == FileSize(s, id)
  {
    forall id ensures FileSize(s[l := File(s[r].id, s[r].size)][r := FreeSpace(s[r].size)], id) == FileSize(s, id) {
      FileSizeUpdate(s, l, File(s[r].id, s[r].size), id);
      FileSizeUpdate(s[l := File(s[r].id, s[r].size)], r, FreeSpace(s[r].size), id);
    }
  }

  lemma SplitPreserves(s: seq<Item>, l: nat, r: nat)
    requires l < r < |s| && s[l].FreeSpace? && s[r].File? && s[l].size < s[r].size
    ensures forall id :: FileSize(s[l := File(s[r].id, s[l].size)][r := File(s[r].id, s[r].size - s[l].size)], id) == FileSize(s, id)
  {
    forall id ensures FileSize(s[l := File(s[r].id, s[l].size)][r := File(s[r].id, s[r].size - s[l].size)], id) == FileSize(s, id) {
      FileSizeUpdate(s, l, File(s[r].id, s[l].size), id);
      FileSizeUpdate(s[l := File(s[r].id, s[l].size)], r, File(s[r].id, s[r].size - s[l].size), id);
    }
  }

  // ---------------------------------------------------------------- checksum

  /** `calculate_checksum`: the sum of id * index over the file items, so a
      disk holding only free space and file 0 sums to nothing. */
  function Checksum(s: seq<Item>): (r: nat)
    ensures (forall i :: 0 <= i < |s| ==> s[i].FreeSpace? || s[i].id == 0) ==> r == 0
  {
    if s == [] then 0
    else Checksum(s[..|s| - 1]) + (if s[|s| - 1].File? then s[|s| - 1].id * (|s| - 1) else 0)
  }

  /** Free items contribute nothing: changing one free item into another
      leaves the checksum as it was. */
  lemma {:induction false} ChecksumIgnoresFree(s: seq<Item>, i: nat, n: nat)
    requires i < |s| && s[i].FreeSpace?
    ensures Checksum(s[i := FreeSpace(n)]) == Checksum(s)
  {
    var t := s[i := FreeSpace(n)];
    if i < |s| - 1 {
      ChecksumIgnoresFree(s[..|s| - 1], i, n);
      assert t[..|t| - 1] == s[..|s| - 1][i := FreeSpace(n)];
    } else {
      assert t[..|t| - 1] == s[..|s| - 1];
    }
  }

  /** The checksum of the list the unit test `compress_trivial` expects, and
      of the five items `compress` returns for it, whose extra free slot adds
      nothing. */
  lemma ChecksumExample()
    ensures Checksum([File(0, 1), File(2, 2), File(1, 3), File(2, 3)]) == 10
    ensures Checksum([File(0, 1), File(2, 2), File(1, 3), File(2, 3), FreeSpace(3)]) == 10
  {
    var s := [File(0, 1), File(2, 2), File(1, 3), File(2, 3)];
    assert Checksum(s[..1]) == 0;
    assert Checksum(s[..2]) == 2;
    assert s[..3][..2] == s[..2] && s[..2][..1] == s[..1] && s[..1][..0] == [];
    assert Checksum(s[..3]) == 4;
    assert s[..4] == s;
    var t := [File(0, 1), File(2, 2), File(1, 3), File(2, 3), FreeSpace(3)];
    assert t[..4] == s;
  }

  /** `solve`: parse, compress and checksum; a bad digit or an empty disk
      panics. */
  method Solve(input: string) returns (r: Option<nat>)
    ensures r.None? <==> ParseDisk(input).None? || ParseDisk(input).value == []
    ensures r.Some? ==> r.value == Checksum(CompressDisk(ParseDisk(input).value).value)
  {
    var disk := ParseDisk(input);
    if disk.None? {
      return None;
    }
    var c := Compress(disk.value);
    if c.None? {
      return None;
    }
    return Some(Checksum(c.value));
  }
}
